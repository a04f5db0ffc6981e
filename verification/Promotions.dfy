/** A promotion's life under the table's constraints: created as a draft or active, assigned
    a target, cancelled; and what a read of products joins it to. */
module Promotions {
  import opened VendorCsv
  import opened ProductStore
  import opened ProductEntries

  datatype Status = Draft | Active | Cancelled

  datatype Promotion = Promotion(name: string, discountType: string, value: int, startsAt: nat, endsAt: nat,
                                 productId: Option<nat>, category: Option<string>, status: Status,
                                 createdAt: nat, cancelledAt: Option<nat>)

  datatype CreateInput = CreateInput(name: string, discountType: string, value: int, startsAt: nat, endsAt: nat,
                                     productId: Option<nat>, category: Option<string>)
  datatype Target = Target(productId: Option<nat>, category: Option<string>)

  /** `Violation` is a failed check: not an outcome, but thrown on to the caller. */
  datatype Reason = NoSuchProduct | Overlap | NotAssignable | NotFound | Violation
  datatype WriteOutcome = Written(id: nat, promotion: Promotion) | Refused(reason: Reason)
  datatype CancelOutcome = IsCancelled(promotion: Promotion, changed: bool) | Unknown

  /** The promotions, the sequence their ids come from, and each product's category. */
  datatype PromotionTable = PromotionTable(rows: map<nat, Promotion>, nextId: nat, products: map<nat, string>)

  predicate ChecksOk(p: Promotion) {
    && p.startsAt < p.endsAt && 0 < p.value && (p.discountType == "percentage" ==> p.value <= 10_000)
    && (p.status == Active ==> p.productId.None? != p.category.None?)
    && (p.status == Draft ==> p.productId.None? && p.category.None?)
  }

  /** Half-open ranges that share an instant. */
  predicate Overlaps(p: Promotion, q: Promotion) { p.startsAt < q.endsAt && q.startsAt < p.endsAt }

  predicate SameTarget(p: Promotion, q: Promotion) {
    (p.productId.Some? && p.productId == q.productId) || (p.category.Some? && p.category == q.category)
  }

  /** What the two exclusion constraints forbid between two rows. */
  predicate Conflicts(p: Promotion, q: Promotion) {
    p.status == Active && q.status == Active && SameTarget(p, q) && Overlaps(p, q)
  }

  predicate Excluded(rows: map<nat, Promotion>, id: nat, p: Promotion) {
    exists other :: other in rows && other != id && Conflicts(rows[other], p)
  }

  /** Why the table would not take `p` as row `id`; none if it would. */
  function Refusal(t: PromotionTable, id: nat, p: Promotion): Option<Reason> {
    if !ChecksOk(p) then Some(Violation)
    else if Excluded(t.rows, id, p) then Some(Overlap)
    else if p.productId.Some? && p.productId.value !in t.products then Some(NoSuchProduct)
    else None
  }

  function Created(input: CreateInput, now: nat): Promotion {
    Promotion(input.name, input.discountType, input.value, input.startsAt, input.endsAt, input.productId, input.category,
              if input.productId.Some? || input.category.Some? then Active else Draft, now, None)
  }

  /** The sequence moves on even when the row is refused. */
  function Insert(t: PromotionTable, now: nat, input: CreateInput): (PromotionTable, WriteOutcome) {
    var p := Created(input, now);
    var refusal := Refusal(t, t.nextId, p);
    if refusal.Some? then (t.(nextId := t.nextId + 1), Refused(refusal.value))
    else (t.(rows := t.rows[t.nextId := p], nextId := t.nextId + 1), Written(t.nextId, p))
  }

  /** A target, and with it the active status, for a draft that is not over; nothing else changes. */
  function Assign(t: PromotionTable, now: nat, id: nat, target: Target): (PromotionTable, WriteOutcome) {
    if id !in t.rows then (t, Refused(NotFound))
    else if t.rows[id].status != Draft || t.rows[id].endsAt <= now then (t, Refused(NotAssignable))
    else
      var p := t.rows[id].(productId := target.productId, category := target.category, status := Active);
      var refusal := Refusal(t, id, p);
      if refusal.Some? then (t, Refused(refusal.value)) else (t.(rows := t.rows[id := p]), Written(id, p))
  }

  function Cancel(t: PromotionTable, now: nat, id: nat): (PromotionTable, CancelOutcome) {
    if id !in t.rows then (t, Unknown)
    else if t.rows[id].status == Cancelled then (t, IsCancelled(t.rows[id], false))
    else
      var p := t.rows[id].(status := Cancelled, cancelledAt := Some(now));
      (t.(rows := t.rows[id := p]), IsCancelled(p, true))
  }

  datatype Action =
    | DoInsert(now: nat, input: CreateInput)
    | DoAssign(now: nat, id: nat, target: Target)
    | DoCancel(now: nat, id: nat)
    | SetProduct(product: nat, category: string)
    | DropProduct(product: nat)

  predicate Referenced(rows: map<nat, Promotion>, product: nat) {
    exists id :: id in rows && rows[id].productId == Some(product)
  }

  /** A product a promotion refers to cannot be dropped. */
  function Step(t: PromotionTable, a: Action): PromotionTable {
    match a
    case DoInsert(now, input) => Insert(t, now, input).0
    case DoAssign(now, id, target) => Assign(t, now, id, target).0
    case DoCancel(now, id) => Cancel(t, now, id).0
    case SetProduct(product, category) => t.(products := t.products[product := category])
    case DropProduct(product) => if Referenced(t.rows, product) then t else t.(products := t.products - {product})
  }

  function Run(t: PromotionTable, acts: seq<Action>): PromotionTable {
    if acts == [] then t else Step(Run(t, acts[..|acts| - 1]), acts[|acts| - 1])
  }

  const EMPTY := PromotionTable(map[], 0, map[])

  ghost predicate RowOk(t: PromotionTable, id: nat)
    requires id in t.rows
  {
    && id < t.nextId && ChecksOk(t.rows[id])
    && (t.rows[id].productId.Some? ==> t.rows[id].productId.value in t.products)
  }

  /** No two active promotions of one target share an instant. */
  ghost predicate Inv(t: PromotionTable) {
    && (forall id :: id in t.rows ==> RowOk(t, id))
    && forall id, other :: id in t.rows && other in t.rows && id != other ==> !Conflicts(t.rows[id], t.rows[other])
  }

  lemma PutKeeps(t: PromotionTable, id: nat, p: Promotion)
    requires Inv(t) && Refusal(t, id, p).None? && id <= t.nextId
    ensures Inv(t.(rows := t.rows[id := p], nextId := if id == t.nextId then id + 1 else t.nextId))
  {
    var u := t.(rows := t.rows[id := p], nextId := if id == t.nextId then id + 1 else t.nextId);
    forall i | i in u.rows ensures RowOk(u, i) {
      if i != id { assert RowOk(t, i); }
    }
    forall i, other | i in u.rows && other in u.rows && i != other ensures !Conflicts(u.rows[i], u.rows[other]) {
      if i == id { assert !Conflicts(t.rows[other], p); }
    }
  }

  lemma CancelKeeps(t: PromotionTable, now: nat, id: nat)
    requires Inv(t)
    ensures Inv(Cancel(t, now, id).0)
  {
    var u := Cancel(t, now, id).0;
    forall i | i in u.rows ensures RowOk(u, i) { assert RowOk(t, i); }
  }

  lemma ProductsKeep(t: PromotionTable, products: map<nat, string>)
    requires Inv(t) && forall id :: id in t.rows && t.rows[id].productId.Some? ==> t.rows[id].productId.value in products
    ensures Inv(t.(products := products))
  {
    forall i | i in t.rows ensures RowOk(t.(products := products), i) { assert RowOk(t, i); }
  }

  lemma StepKeeps(t: PromotionTable, a: Action)
    requires Inv(t)
    ensures Inv(Step(t, a))
  {
    match a
    case DoInsert(now, input) =>
      if Refusal(t, t.nextId, Created(input, now)).None? { PutKeeps(t, t.nextId, Created(input, now)); }
      else { forall i | i in t.rows ensures RowOk(t.(nextId := t.nextId + 1), i) { assert RowOk(t, i); } }
    case DoAssign(now, id, target) =>
      if Assign(t, now, id, target).1.Written? {
        assert RowOk(t, id);
        PutKeeps(t, id, Assign(t, now, id, target).1.promotion);
      }
    case DoCancel(now, id) => CancelKeeps(t, now, id);
    case SetProduct(product, category) =>
      forall i | i in t.rows && t.rows[i].productId.Some? ensures t.rows[i].productId.value in t.products[product := category] {
        assert RowOk(t, i);
      }
      ProductsKeep(t, t.products[product := category]);
    case DropProduct(product) =>
      if !Referenced(t.rows, product) {
        forall i | i in t.rows && t.rows[i].productId.Some? ensures t.rows[i].productId.value in t.products - {product} {
          assert RowOk(t, i);
        }
        ProductsKeep(t, t.products - {product});
      }
  }

  lemma {:induction false} RunKeeps(t: PromotionTable, acts: seq<Action>)
    requires Inv(t)
    ensures Inv(Run(t, acts))
    decreases |acts|
  {
    if acts != [] {
      RunKeeps(t, acts[..|acts| - 1]);
      StepKeeps(Run(t, acts[..|acts| - 1]), acts[|acts| - 1]);
    }
  }

  /** The view of active promotions: whose window holds `at`. */
  function ActiveAt(t: PromotionTable, at: nat): set<nat> {
    set id | id in t.rows && t.rows[id].status == Active && t.rows[id].startsAt <= at < t.rows[id].endsAt
  }

  /** One side of the read's left joins: every match, or one row of nulls. */
  function Joined(ids: set<nat>): set<Option<nat>> {
    if ids == {} then {None} else set id | id in ids :: Some(id)
  }

  function ForProduct(t: PromotionTable, at: nat, product: nat): set<nat> {
    set id | id in ActiveAt(t, at) && t.rows[id].productId == Some(product)
  }

  function ForCategory(t: PromotionTable, at: nat, category: string): set<nat> {
    set id | id in ActiveAt(t, at) && t.rows[id].category == Some(category)
  }

  /** The rows `read` returns for one product. */
  function ReadRows(t: PromotionTable, at: nat, product: nat): set<(Option<nat>, Option<nat>)>
    requires product in t.products
  {
    set pp, cp | pp in Joined(ForProduct(t, at, product)) && cp in Joined(ForCategory(t, at, t.products[product])) :: (pp, cp)
  }

  /** In every reachable table, at every instant, at most one active promotion covers a
      product and at most one covers a category. */
  lemma {:induction false} OnePerTarget(acts: seq<Action>, at: nat, id: nat, other: nat)
    requires var t := Run(EMPTY, acts);
             id in ActiveAt(t, at) && other in ActiveAt(t, at) && SameTarget(t.rows[id], t.rows[other])
    ensures id == other
  {
    RunKeeps(EMPTY, acts);
  }

  /** So a read returns exactly one row per product, whatever joins it. */
  lemma {:induction false} ReadIsOneRow(acts: seq<Action>, at: nat, product: nat)
    requires product in Run(EMPTY, acts).products
    ensures exists pp, cp :: ReadRows(Run(EMPTY, acts), at, product) == {(pp, cp)}
  {
    var t := Run(EMPTY, acts);
    var pps, cps := ForProduct(t, at, product), ForCategory(t, at, t.products[product]);
    forall id, other | id in pps && other in pps ensures id == other { OnePerTarget(acts, at, id, other); }
    forall id, other | id in cps && other in cps ensures id == other { OnePerTarget(acts, at, id, other); }
    var pp := JoinedIsOne(pps);
    var cp := JoinedIsOne(cps);
    assert ReadRows(t, at, product) == {(pp, cp)};
  }

  lemma JoinedIsOne(ids: set<nat>) returns (row: Option<nat>)
    requires forall id, other :: id in ids && other in ids ==> id == other
    ensures Joined(ids) == {row}
  {
    if ids == {} {
      row := None;
    } else {
      var id :| id in ids;
      row := Some(id);
    }
  }

  /** What the columns must say: a window, a value the type can mean, and one target at most. */
  predicate WellFormed(discountType: string, value: int, startsAt: nat, endsAt: nat, productId: Option<nat>, category: Option<string>) {
    && startsAt < endsAt && 0 < value && (discountType == "percentage" ==> value <= 10_000)
    && !(productId.Some? && category.Some?)
  }

  /** No active promotion of this target shares an instant with the window. */
  ghost predicate TargetFree(t: PromotionTable, productId: Option<nat>, category: Option<string>, startsAt: nat, endsAt: nat) {
    forall at: nat, id :: startsAt <= at < endsAt && id in ActiveAt(t, at) ==>
      && !(productId.Some? && t.rows[id].productId == productId)
      && !(category.Some? && t.rows[id].category == category)
  }

  lemma ExcludedIff(t: PromotionTable, id: nat, p: Promotion)
    requires Inv(t) && p.status == Active && p.startsAt < p.endsAt && (id in t.rows ==> t.rows[id].status != Active)
    ensures Excluded(t.rows, id, p) <==> !TargetFree(t, p.productId, p.category, p.startsAt, p.endsAt)
  {
    if Excluded(t.rows, id, p) {
      var other :| other in t.rows && other != id && Conflicts(t.rows[other], p);
      assert RowOk(t, other);
      var at := if t.rows[other].startsAt < p.startsAt then p.startsAt else t.rows[other].startsAt;
      assert other in ActiveAt(t, at);
    }
    if !TargetFree(t, p.productId, p.category, p.startsAt, p.endsAt) {
      var at: nat, other :| p.startsAt <= at < p.endsAt && other in ActiveAt(t, at)
                            && ((p.productId.Some? && t.rows[other].productId == p.productId)
                                || (p.category.Some? && t.rows[other].category == p.category));
      assert Conflicts(t.rows[other], p);
    }
  }

  /** What an insert is taken for, exactly: against any reachable table, a well-formed
      promotion whose product exists and whose target is free for its window. What is then
      stored is what was asked for: active if it has a target and a draft otherwise. */
  lemma InsertedExactlyWhen(acts: seq<Action>, now: nat, input: CreateInput)
    ensures var t := Run(EMPTY, acts);
            Insert(t, now, input).1.Written? <==>
              && WellFormed(input.discountType, input.value, input.startsAt, input.endsAt, input.productId, input.category)
              && (input.productId.Some? ==> input.productId.value in t.products)
              && TargetFree(t, input.productId, input.category, input.startsAt, input.endsAt)
    ensures var t := Run(EMPTY, acts);
            var ok := WellFormed(input.discountType, input.value, input.startsAt, input.endsAt, input.productId, input.category);
            var outcome := Insert(t, now, input).1;
            && (outcome == Refused(Violation) <==> !ok)
            && (outcome == Refused(Overlap) <==> ok && !TargetFree(t, input.productId, input.category, input.startsAt, input.endsAt))
    ensures var t := Run(EMPTY, acts);
            var u, outcome := Insert(t, now, input).0, Insert(t, now, input).1;
            if outcome.Written? then
              && outcome.id !in t.rows && u.rows == t.rows[outcome.id := outcome.promotion]
              && outcome.promotion ==
                   Promotion(input.name, input.discountType, input.value, input.startsAt, input.endsAt, input.productId, input.category,
                             if input.productId.None? && input.category.None? then Draft else Active, now, None)
            else u.rows == t.rows
  {
    var t, p := Run(EMPTY, acts), Created(input, now);
    RunKeeps(EMPTY, acts);
    forall id | id in t.rows ensures id < t.nextId { assert RowOk(t, id); }
    if p.status == Active {
      if p.startsAt < p.endsAt { ExcludedIff(t, t.nextId, p); }
    } else {
      assert !Excluded(t.rows, t.nextId, p);
    }
  }

  /** What an assignment is taken for, exactly: a draft that is not over, one target and only
      one, whose product exists and which is free for the draft's window. It then has that
      target and is active, and nothing else of it, nor any other row, has changed. */
  lemma AssignedExactlyWhen(acts: seq<Action>, now: nat, id: nat, target: Target)
    ensures var t := Run(EMPTY, acts);
            var u, outcome := Assign(t, now, id, target).0, Assign(t, now, id, target).1;
            && (outcome == Refused(NotFound) <==> id !in t.rows)
            && (outcome == Refused(NotAssignable) <==> id in t.rows && (t.rows[id].status != Draft || t.rows[id].endsAt <= now))
            && (outcome == Refused(Overlap) <==>
                  && id in t.rows && t.rows[id].status == Draft && now < t.rows[id].endsAt
                  && target.productId.None? != target.category.None?
                  && !TargetFree(t, target.productId, target.category, t.rows[id].startsAt, t.rows[id].endsAt))
            && (outcome.Written? <==>
                  && id in t.rows && t.rows[id].status == Draft && now < t.rows[id].endsAt
                  && target.productId.None? != target.category.None?
                  && (target.productId.Some? ==> target.productId.value in t.products)
                  && TargetFree(t, target.productId, target.category, t.rows[id].startsAt, t.rows[id].endsAt))
            && (if outcome.Written? then
                  outcome == Written(id, t.rows[id].(productId := target.productId, category := target.category, status := Active))
                  && u.rows == t.rows[id := outcome.promotion]
                else u.rows == t.rows)
  {
    var t := Run(EMPTY, acts);
    RunKeeps(EMPTY, acts);
    if id in t.rows && t.rows[id].status == Draft {
      assert RowOk(t, id);
      ExcludedIff(t, id, t.rows[id].(productId := target.productId, category := target.category, status := Active));
    }
  }

  /** A cancel cancels: a known promotion not yet cancelled is cancelled at this instant, and
      nothing else of it, nor any other row, has changed; cancelling again changes nothing. */
  lemma CancelCancels(t: PromotionTable, now: nat, id: nat)
    ensures var u, outcome := Cancel(t, now, id).0, Cancel(t, now, id).1;
            if id !in t.rows then outcome == Unknown && u == t
            else if t.rows[id].status == Cancelled then outcome == IsCancelled(t.rows[id], false) && u == t
            else
              && u == t.(rows := t.rows[id := u.rows[id]]) && outcome == IsCancelled(u.rows[id], true)
              && u.rows[id].status == Cancelled && u.rows[id].cancelledAt == Some(now)
              && u.rows[id].(status := t.rows[id].status, cancelledAt := t.rows[id].cancelledAt) == t.rows[id]
  {
  }

  /** Cancelled is for good: in every run that follows the promotion keeps its first instant of
      cancellation, is active at no instant, and stands in the way of no insert. */
  lemma CancelledForGood(t: PromotionTable, now: nat, id: nat, acts: seq<Action>)
    requires Inv(t) && id in t.rows
    ensures var u := Run(Step(t, DoCancel(now, id)), acts);
            && id in u.rows && u.rows[id].status == Cancelled
            && u.rows[id].cancelledAt == (if t.rows[id].status == Cancelled then t.rows[id].cancelledAt else Some(now))
            && (forall at :: id !in ActiveAt(u, at))
            && forall later, input :: Insert(u, later, input).1 == Insert(u.(rows := u.rows - {id}), later, input).1
  {
    StepKeeps(t, DoCancel(now, id));
    CancelCancels(t, now, id);
    LivesOn(Step(t, DoCancel(now, id)), acts, id);
    var u := Run(Step(t, DoCancel(now, id)), acts);
    forall later, input ensures Insert(u, later, input).1 == Insert(u.(rows := u.rows - {id}), later, input).1 {
      var p, others := Created(input, later), u.rows - {id};
      assert Excluded(u.rows, u.nextId, p) <==> Excluded(others, u.nextId, p) by {
        forall other | other in others ensures others[other] == u.rows[other] {}
        assert !Conflicts(u.rows[id], p);
        if Excluded(u.rows, u.nextId, p) {
          var other :| other in u.rows && other != u.nextId && Conflicts(u.rows[other], p);
          assert other in others;
        }
      }
    }
  }

  /** What never changes on a row: its window, when it was created, and a cancellation. */
  predicate Lives(p: Promotion, q: Promotion) {
    && q.startsAt == p.startsAt && q.endsAt == p.endsAt && q.createdAt == p.createdAt
    && q.discountType == p.discountType && q.value == p.value
    && (p.status != Draft ==> q.status != Draft && q.productId == p.productId && q.category == p.category)
    && (p.status == Cancelled ==> q == p)
  }

  lemma {:induction false} LivesOn(t: PromotionTable, acts: seq<Action>, id: nat)
    requires Inv(t) && id in t.rows
    ensures id in Run(t, acts).rows && Lives(t.rows[id], Run(t, acts).rows[id])
    decreases |acts|
  {
    if acts != [] {
      var init, a := acts[..|acts| - 1], acts[|acts| - 1];
      LivesOn(t, init, id);
      RunKeeps(t, init);
      var mid := Run(t, init);
      assert RowOk(mid, id);
    }
  }

  /** Every name a promotion was created under is trimmed and not empty. */
  predicate Named(acts: seq<Action>) {
    forall k :: 0 <= k < |acts| && acts[k].DoInsert? ==> IsTrimmed(acts[k].input.name)
  }

  /** So no promotion of a reachable table has a blank name: an entry priced with it is one
      the reader takes. */
  lemma {:induction false} NamesAreNotBlank(acts: seq<Action>, id: nat)
    requires Named(acts) && id in Run(EMPTY, acts).rows
    ensures IsTrimmed(Run(EMPTY, acts).rows[id].name) && !IsBlank(Run(EMPTY, acts).rows[id].name)
    decreases |acts|
  {
    if acts != [] {
      var init, a := acts[..|acts| - 1], acts[|acts| - 1];
      assert acts == init + [a];
      var before := Run(EMPTY, init);
      if id in before.rows { NamesAreNotBlank(init, id); }
      RunKeeps(EMPTY, init);
      if id !in before.rows || a.DoInsert? { assert id in before.rows ==> RowOk(before, id); }
      TrimmedIsNotBlank(Run(EMPTY, acts).rows[id].name);
    }
  }

  datatype PromotionState = IsDraft | Scheduled | Live | Expired | WasCancelled

  /** What a promotion is doing at `now`. */
  function StateOf(p: Promotion, now: nat): PromotionState {
    if p.status == Cancelled then WasCancelled
    else if p.status == Draft then IsDraft
    else if p.startsAt > now then Scheduled
    else if p.endsAt <= now then Expired
    else Live
  }

  /** What an admin is shown as live is exactly what prices products at that instant, and
      what is shown as cancelled or expired prices none from then on. */
  lemma LiveIsActive(t: PromotionTable, now: nat, id: nat)
    requires id in t.rows
    ensures StateOf(t.rows[id], now) == Live <==> id in ActiveAt(t, now)
    ensures id in ActiveAt(t, now) <==> t.rows[id].status == Active && t.rows[id].startsAt <= now < t.rows[id].endsAt
    ensures StateOf(t.rows[id], now) in [WasCancelled, Expired] ==> forall at :: now <= at ==> id !in ActiveAt(t, at)
  {
  }

  /** The table, written a row at a time. */
  class PromotionRepository {
    var rows: map<nat, Promotion>
    var nextId: nat
    var products: map<nat, string>

    function Contents(): PromotionTable
      reads this
    {
      PromotionTable(rows, nextId, products)
    }

    ghost predicate Valid()
      reads this
    {
      Inv(Contents())
    }

    constructor ()
      ensures Valid() && Contents() == EMPTY
    {
      rows, nextId, products := map[], 0, map[];
    }

    /** What the constraints say to writing `p` as row `id`; the row is written if nothing. */
    method Put(id: nat, p: Promotion) returns (refusal: Option<Reason>)
      requires Valid() && id <= nextId
      modifies this`rows
      ensures refusal == Refusal(old(Contents()), id, p)
      ensures rows == if refusal.None? then old(rows)[id := p] else old(rows)
    {
      if !ChecksOk(p) { return Some(Violation); }
      if Excluded(rows, id, p) { return Some(Overlap); }
      if p.productId.Some? && p.productId.value !in products { return Some(NoSuchProduct); }
      rows := rows[id := p];
      refusal := None;
    }

    method Create(now: nat, input: CreateInput) returns (outcome: WriteOutcome)
      requires Valid()
      modifies this`rows, this`nextId
      ensures Valid() && (Contents(), outcome) == Insert(old(Contents()), now, input)
    {
      StepKeeps(Contents(), DoInsert(now, input));
      var hasTarget := input.productId.Some? || input.category.Some?;
      var p := Promotion(input.name, input.discountType, input.value, input.startsAt, input.endsAt, input.productId,
                         input.category, if hasTarget then Active else Draft, now, None);
      var id := nextId;
      var refusal := Put(id, p);
      nextId := id + 1;
      outcome := if refusal.Some? then Refused(refusal.value) else Written(id, p);
    }

    method AssignTarget(now: nat, id: nat, target: Target) returns (outcome: WriteOutcome)
      requires Valid()
      modifies this`rows
      ensures Valid() && (Contents(), outcome) == Assign(old(Contents()), now, id, target)
    {
      StepKeeps(Contents(), DoAssign(now, id, target));
      if id in rows && rows[id].status == Draft && rows[id].endsAt > now {
        assert RowOk(Contents(), id);
        var p := rows[id].(productId := target.productId, category := target.category, status := Active);
        var refusal := Put(id, p);
        outcome := if refusal.Some? then Refused(refusal.value) else Written(id, p);
      } else {
        outcome := Refused(if id in rows then NotAssignable else NotFound);
      }
    }

    method CancelRow(now: nat, id: nat) returns (outcome: CancelOutcome)
      requires Valid()
      modifies this`rows
      ensures Valid() && (Contents(), outcome) == Cancel(old(Contents()), now, id)
      ensures id in old(rows) && old(rows)[id].status != Cancelled ==>
                rows == old(rows)[id := old(rows)[id].(status := Cancelled, cancelledAt := Some(now))]
    {
      StepKeeps(Contents(), DoCancel(now, id));
      if id in rows && rows[id].status != Cancelled {
        rows := rows[id := rows[id].(status := Cancelled, cancelledAt := Some(now))];
        outcome := IsCancelled(rows[id], true);
      } else {
        outcome := if id in rows then IsCancelled(rows[id], false) else Unknown;
      }
    }
  }
}
