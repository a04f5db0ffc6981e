/** The storefront's recompute: PostgreSQL read at one instant and written later, in any
    order, any number of times, by any number of workers. */
module Recompute {
  import opened ProductStore
  import opened EffectivePrice
  import opened ProductEntries
  import opened ReadModel

  type Catalogue = map<nat, SourceRow>

  predicate CatalogueOk(source: Catalogue) {
    forall id :: id in source ==> source[id].id == id && source[id].category != ""
  }

  /** What one read of PostgreSQL says about a product: its entry, or that it is gone. */
  function Recomputed(rules: seq<Rule>, source: Catalogue, at: nat, id: nat): (m: Message)
    requires CatalogueOk(source)
    ensures m.Id() == id && m.at == at && m.WellFormed()
  {
    if id in source then Write(Price(rules, source[id]), at) else Remove(id, at)
  }

  /** The messages of one handler, in the order it sends them; each may arrive in any order
      and any number of times. */
  function MessagesFor(rules: seq<Rule>, source: Catalogue, at: nat, ids: seq<nat>): (ms: seq<Message>)
    requires CatalogueOk(source)
    ensures |ms| == |ids| && forall k :: 0 <= k < |ms| ==> ms[k] == Recomputed(rules, source, at, ids[k])
  {
    if ids == [] then []
    else MessagesFor(rules, source, at, ids[..|ids| - 1]) + [Recomputed(rules, source, at, ids[|ids| - 1])]
  }

  /** `shown` is what PostgreSQL showed at each instant its clock named, and `named` every id
      it showed or was asked for; `asking` the batches a read found nothing of, which have
      no token yet; `pool` the messages of every read so far; `delivered` those that reached
      Redis, in order of arrival. */
  datatype State = State(now: nat, source: Catalogue, shown: map<nat, Catalogue>, named: set<nat>,
                         asking: seq<seq<nat>>, pool: seq<Message>, delivered: seq<Message>, index: Index)

  datatype Action =
    | Tick(elapsed: nat)
    | Change(source: Catalogue, elapsed: nat)
    | Read(ids: seq<nat>)
    | Stamp(k: nat)
    | Deliver(k: nat)

  function Shown(s: State, now: nat, source: Catalogue): State {
    s.(now := now, source := source, shown := s.shown[now := source], named := s.named + source.Keys)
  }

  /** A product's id is new when it first shows, and is not used again once it is gone. */
  predicate IdsAreNew(s: State, source: Catalogue) {
    forall id :: id in source ==> id in s.source || id !in s.named
  }

  predicate Finds(source: Catalogue, ids: seq<nat>) {
    exists k :: 0 <= k < |ids| && ids[k] in source
  }

  function Elems(ids: seq<nat>): set<nat> {
    set id | id in ids
  }

  /** `Change` is anything that alters what a read returns: a product's row, a promotion, or
      the clock reaching the start or end of one. It shows at a later instant than every
      read before it, so that tokens order as the snapshots they stand for do. A read that
      finds no row at all has no token in its answer: `Stamp` asks for one, later. */
  function Step(rules: seq<Rule>, s: State, a: Action): State {
    match a
    case Tick(elapsed) => Shown(s, s.now + elapsed, s.source)
    case Change(source, elapsed) =>
      if CatalogueOk(source) && IdsAreNew(s, source) && 0 < elapsed then Shown(s, s.now + elapsed, source) else s
    case Read(ids) =>
      if !CatalogueOk(s.source) then s
      else if Finds(s.source, ids)
      then s.(pool := s.pool + MessagesFor(rules, s.source, s.now, ids), named := s.named + Elems(ids))
      else s.(asking := s.asking + [ids], named := s.named + Elems(ids))
    case Stamp(k) =>
      if k < |s.asking| then s.(pool := s.pool + MessagesFor(rules, map[], s.now, s.asking[k])) else s
    case Deliver(k) =>
      if k < |s.pool| then s.(delivered := s.delivered + [s.pool[k]], index := Apply(s.index, s.pool[k])) else s
  }

  function Run(rules: seq<Rule>, s: State, acts: seq<Action>): State {
    if acts == [] then s else Step(rules, Run(rules, s, acts[..|acts| - 1]), acts[|acts| - 1])
  }

  /** An empty Redis beside a catalogue. */
  predicate Fresh(s: State) {
    && CatalogueOk(s.source) && s.shown == map[s.now := s.source] && s.named == s.source.Keys
    && s.asking == [] && s.pool == [] && s.delivered == [] && s.index == EMPTY
  }

  /** The message is what PostgreSQL showed at its token. */
  predicate True(rules: seq<Rule>, shown: map<nat, Catalogue>, m: Message) {
    m.at in shown && CatalogueOk(shown[m.at]) && m == Recomputed(rules, shown[m.at], m.at, m.Id())
  }

  predicate AllTrue(rules: seq<Rule>, shown: map<nat, Catalogue>, ms: seq<Message>) {
    forall k :: 0 <= k < |ms| ==> True(rules, shown, ms[k])
  }

  predicate ShownOk(now: nat, source: Catalogue, shown: map<nat, Catalogue>) {
    && CatalogueOk(source) && now in shown && shown[now] == source
    && forall t :: t in shown ==> t <= now && CatalogueOk(shown[t])
  }

  /** What was asked for and not found is gone, and does not come back. */
  predicate Gone(source: Catalogue, named: set<nat>, asking: seq<seq<nat>>) {
    && source.Keys <= named
    && forall k, j :: 0 <= k < |asking| && 0 <= j < |asking[k]| ==> asking[k][j] in named && asking[k][j] !in source
  }

  predicate Inv(rules: seq<Rule>, s: State) {
    && ShownOk(s.now, s.source, s.shown)
    && Gone(s.source, s.named, s.asking)
    && AllTrue(rules, s.shown, s.pool)
    && AllTrue(rules, s.shown, s.delivered)
    && s.index == ApplyAll(EMPTY, s.delivered)
  }

  lemma ShownKeeps(rules: seq<Rule>, s: State, now: nat, source: Catalogue)
    requires Inv(rules, s) && CatalogueOk(source) && IdsAreNew(s, source)
    requires s.now < now || (s.now == now && source == s.source)
    ensures Inv(rules, Shown(s, now, source))
  {
    var t := Shown(s, now, source);
    assert ShownOk(t.now, t.source, t.shown);
    StaysTrue(rules, s.shown, t.shown, s.pool);
    StaysTrue(rules, s.shown, t.shown, s.delivered);
  }

  lemma StaysTrue(rules: seq<Rule>, shown: map<nat, Catalogue>, more: map<nat, Catalogue>, ms: seq<Message>)
    requires AllTrue(rules, shown, ms) && forall t :: t in shown ==> t in more && more[t] == shown[t]
    ensures AllTrue(rules, more, ms)
  {
    forall k | 0 <= k < |ms| ensures True(rules, more, ms[k]) { assert True(rules, shown, ms[k]); }
  }

  lemma ReadKeeps(rules: seq<Rule>, s: State, ids: seq<nat>)
    requires Inv(rules, s)
    ensures Inv(rules, Step(rules, s, Read(ids)))
  {
    if Finds(s.source, ids) {
      MessagesAreTrue(rules, s, s.source, ids);
    }
  }

  lemma MessagesAreTrue(rules: seq<Rule>, s: State, source: Catalogue, ids: seq<nat>)
    requires Inv(rules, s) && CatalogueOk(source)
    requires source == s.source || (source == map[] && forall j :: 0 <= j < |ids| ==> ids[j] !in s.source)
    ensures AllTrue(rules, s.shown, s.pool + MessagesFor(rules, source, s.now, ids))
  {
    var ms := MessagesFor(rules, source, s.now, ids);
    forall k | 0 <= k < |ms| ensures True(rules, s.shown, ms[k]) {
      assert ms[k] == Recomputed(rules, source, s.now, ids[k]);
    }
    forall k | 0 <= k < |s.pool + ms| ensures True(rules, s.shown, (s.pool + ms)[k]) {
      if k < |s.pool| { assert True(rules, s.shown, s.pool[k]); }
    }
  }

  lemma StepKeeps(rules: seq<Rule>, s: State, a: Action)
    requires Inv(rules, s)
    ensures Inv(rules, Step(rules, s, a))
  {
    match a
    case Tick(elapsed) => ShownKeeps(rules, s, s.now + elapsed, s.source);
    case Change(source, elapsed) =>
      if CatalogueOk(source) && IdsAreNew(s, source) && 0 < elapsed { ShownKeeps(rules, s, s.now + elapsed, source); }
    case Read(ids) => ReadKeeps(rules, s, ids);
    case Stamp(k) => StampKeeps(rules, s, k);
    case Deliver(k) => DeliverKeeps(rules, s, k);
  }

  lemma StampKeeps(rules: seq<Rule>, s: State, k: nat)
    requires Inv(rules, s)
    ensures Inv(rules, Step(rules, s, Stamp(k)))
  {
    if k < |s.asking| { MessagesAreTrue(rules, s, map[], s.asking[k]); }
  }

  lemma DeliverKeeps(rules: seq<Rule>, s: State, k: nat)
    requires Inv(rules, s)
    ensures Inv(rules, Step(rules, s, Deliver(k)))
  {
    if k < |s.pool| {
      TrueSnoc(rules, s.shown, s.delivered, s.pool[k]);
      ApplySnoc(s.delivered, s.pool[k]);
    }
  }

  lemma TrueSnoc(rules: seq<Rule>, shown: map<nat, Catalogue>, ms: seq<Message>, m: Message)
    requires AllTrue(rules, shown, ms) && True(rules, shown, m)
    ensures AllTrue(rules, shown, ms + [m])
  {
  }

  lemma ApplySnoc(ms: seq<Message>, m: Message)
    ensures ApplyAll(EMPTY, ms + [m]) == Apply(ApplyAll(EMPTY, ms), m)
  {
    assert (ms + [m])[..|ms|] == ms;
  }

  lemma {:induction false} RunKeeps(rules: seq<Rule>, s: State, acts: seq<Action>)
    requires Inv(rules, s)
    ensures Inv(rules, Run(rules, s, acts))
    decreases |acts|
  {
    if acts != [] {
      RunKeeps(rules, s, acts[..|acts| - 1]);
      StepKeeps(rules, Run(rules, s, acts[..|acts| - 1]), acts[|acts| - 1]);
    }
  }

  lemma DeliveredWellFormed(rules: seq<Rule>, shown: map<nat, Catalogue>, ms: seq<Message>)
    requires AllTrue(rules, shown, ms)
    ensures WellFormedAll(ms) && Consistent(ms)
  {
  }

  /** The cache agrees with its source: whatever the interleaving, every product the read
      model has ever heard of is exactly as PostgreSQL showed it at its stored token, priced,
      listed once and at that price; or nowhere, if PostgreSQL did not hold it then. */
  lemma {:induction false} CacheAgrees(rules: seq<Rule>, s0: State, acts: seq<Action>, id: nat)
    requires Fresh(s0)
    ensures var s := Run(rules, s0, acts);
            if id !in s.index.tokens then Unlisted(s.index, id)
            else
              var at := s.index.tokens[id].at;
              && at in s.shown && at <= s.now
              && if id in s.shown[at] then Listed(s.index, id, Price(rules, s.shown[at][id])) else Unlisted(s.index, id)
  {
    RunKeeps(rules, s0, acts);
    var s := Run(rules, s0, acts);
    DeliveredWellFormed(rules, s.shown, s.delivered);
    RunShows(s.delivered);
    WinnerIsNewest(s.delivered, id);
    assert ShowsProduct(s.index, id, Winner(Winners(s.delivered), id));
    if id in s.index.tokens {
      var k :| 0 <= k < |s.delivered| && s.delivered[k] == Winners(s.delivered)[id];
      assert True(rules, s.shown, s.delivered[k]);
    }
  }

  /** Two runs that delivered the same messages hold the same read model, whatever order
      they arrived in. */
  lemma DeliveryOrderIsIrrelevant(rules: seq<Rule>, s0: State, some: seq<Action>, other: seq<Action>)
    requires Fresh(s0)
    requires forall m :: m in Run(rules, s0, some).delivered <==> m in Run(rules, s0, other).delivered
    ensures Run(rules, s0, some).index == Run(rules, s0, other).index
  {
    RunKeeps(rules, s0, some);
    RunKeeps(rules, s0, other);
    var s := Run(rules, s0, some);
    DeliveredWellFormed(rules, s.shown, s.delivered);
    OrderIndependent(s.delivered, Run(rules, s0, other).delivered);
  }

  predicate Later(s: State, t: State, id: nat) {
    id in s.index.tokens ==> id in t.index.tokens && s.index.tokens[id].at <= t.index.tokens[id].at
  }

  /** No run takes a product's token back. */
  lemma {:induction false} TokensOnlyGrow(rules: seq<Rule>, s: State, acts: seq<Action>, id: nat)
    ensures Later(s, Run(rules, s, acts), id)
    decreases |acts|
  {
    if acts != [] {
      var init, a := acts[..|acts| - 1], acts[|acts| - 1];
      TokensOnlyGrow(rules, s, init, id);
      var mid := Run(rules, s, init);
      if a.Deliver? && a.k < |mid.pool| && id in mid.index.tokens { TokensGrow(mid.index, mid.pool[a.k], id); }
    }
  }

  /** A product's row, and the promotions that price it, have been as they are since `since`. */
  predicate SettledSince(s: State, id: nat, since: nat) {
    forall t :: t in s.shown && since <= t ==>
      (id in s.shown[t] <==> id in s.source) && (id in s.source ==> s.shown[t][id] == s.source[id])
  }

  /** Convergence: once a read made after a product's last change has reached Redis, the
      read model shows the product as it is, whatever older messages arrive afterwards. */
  lemma {:induction false} Converges(rules: seq<Rule>, s0: State, acts: seq<Action>, id: nat, since: nat, m: Message)
    requires Fresh(s0)
    requires var s := Run(rules, s0, acts);
             m in s.delivered && m.Id() == id && since <= m.at && SettledSince(s, id, since)
    ensures var s := Run(rules, s0, acts);
            if id in s.source then Listed(s.index, id, Price(rules, s.source[id])) else Unlisted(s.index, id)
  {
    var s := Run(rules, s0, acts);
    RunKeeps(rules, s0, acts);
    CacheAgrees(rules, s0, acts, id);
    DeliveredWellFormed(rules, s.shown, s.delivered);
    RunShows(s.delivered);
    WinnerIsNewest(s.delivered, id);
    var k :| 0 <= k < |s.delivered| && s.delivered[k] == m;
    assert ShowsProduct(s.index, id, Winner(Winners(s.delivered), id));
    assert since <= s.index.tokens[id].at;
  }
}
