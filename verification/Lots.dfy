/** Dated stock lots and their first-expired-first-out consumption. */
module Lots {
  import opened Wrappers

  /** Stock is kept for articles and for raw materials; both have lots. */
  datatype Item = Article(id: nat) | Matiere(id: nat)

  datatype Lot = Lot(item: Item, initial: real, remaining: real, expiresAt: Option<int>, createdAt: int)

  type LotId = nat

  datatype Take = Take(lot: LotId, quantity: real)

  predicate Expired(lot: Lot, today: int) {
    lot.expiresAt.Some? && lot.expiresAt.value < today
  }

  predicate Consumable(lot: Lot, item: Item, today: int) {
    lot.item == item && lot.remaining > 0.0 && !Expired(lot, today)
  }

  // ---------------------------------------------------------------- the locked, ordered selection

  /** Dated lots before undated ones, then the earliest date, the oldest row, the smallest id. */
  predicate Precedes(lots: seq<Lot>, i: LotId, j: LotId)
    requires i < |lots| && j < |lots|
  {
    var a, b := lots[i], lots[j];
    if a.expiresAt.Some? != b.expiresAt.Some? then a.expiresAt.Some?
    else if a.expiresAt.Some? && a.expiresAt.value != b.expiresAt.value then a.expiresAt.value < b.expiresAt.value
    else if a.createdAt != b.createdAt then a.createdAt < b.createdAt
    else i < j
  }

  predicate InRange(lots: seq<Lot>, ids: seq<LotId>) {
    forall k :: 0 <= k < |ids| ==> ids[k] < |lots|
  }

  predicate Ordered(lots: seq<Lot>, ids: seq<LotId>)
    requires InRange(lots, ids)
  {
    forall i, j :: 0 <= i < j < |ids| ==> Precedes(lots, ids[i], ids[j])
  }

  function Insert(lots: seq<Lot>, ids: seq<LotId>, id: LotId): (r: seq<LotId>)
    requires InRange(lots, ids) && id < |lots| && id !in ids && Ordered(lots, ids)
    ensures InRange(lots, r) && Ordered(lots, r)
    ensures forall x :: x in r <==> x == id || x in ids
  {
    if ids == [] || Precedes(lots, id, ids[0]) then [id] + ids
    else
      var rest := Insert(lots, ids[1..], id);
      assert forall k :: 0 <= k < |rest| ==> rest[k] in rest;
      [ids[0]] + rest
  }

  function Select(lots: seq<Lot>, item: Item, today: int, n: nat): (r: seq<LotId>)
    requires n <= |lots|
    ensures InRange(lots, r) && Ordered(lots, r)
    ensures forall x: LotId :: x in r <==> x < n && Consumable(lots[x], item, today)
  {
    if n == 0 then []
    else
      var earlier := Select(lots, item, today, n - 1);
      if Consumable(lots[n - 1], item, today) then Insert(lots, earlier, n - 1) else earlier
  }

  /** The lots a consumer of item may draw on at a given day, in the order it draws on them. */
  function FefoOrder(lots: seq<Lot>, item: Item, today: int): (r: seq<LotId>)
    ensures InRange(lots, r) && Ordered(lots, r)
    ensures forall x: LotId :: x in r <==> x < |lots| && Consumable(lots[x], item, today)
  {
    Select(lots, item, today, |lots|)
  }

  // ---------------------------------------------------------------- consumption

  /** Distinct lots that all hold something. */
  predicate Drawable(lots: seq<Lot>, ids: seq<LotId>) {
    && (forall k :: 0 <= k < |ids| ==> ids[k] < |lots| && lots[ids[k]].remaining > 0.0)
    && (forall i, j :: 0 <= i < j < |ids| ==> ids[i] != ids[j])
  }

  lemma FefoIsDrawable(lots: seq<Lot>, item: Item, today: int)
    ensures Drawable(lots, FefoOrder(lots, item, today))
  {
    var ids := FefoOrder(lots, item, today);
    forall k | 0 <= k < |ids| ensures ids[k] < |lots| && lots[ids[k]].remaining > 0.0 {
      assert ids[k] in ids;
    }
    forall i, j | 0 <= i < j < |ids| ensures ids[i] != ids[j] {
      assert Precedes(lots, ids[i], ids[j]);
    }
  }

  function Total(lots: seq<Lot>, ids: seq<LotId>, i: nat): (r: real)
    requires Drawable(lots, ids) && i <= |ids|
    ensures r >= 0.0
    decreases |ids| - i
  {
    if i == |ids| then 0.0 else lots[ids[i]].remaining + Total(lots, ids, i + 1)
  }

  /** What a consumer of q units takes from each of the selected lots from the i-th on. */
  function Plan(lots: seq<Lot>, ids: seq<LotId>, i: nat, q: real): (r: seq<Take>)
    requires Drawable(lots, ids) && i <= |ids|
    ensures |r| <= |ids| - i
    ensures forall k :: 0 <= k < |r| ==> r[k].lot == ids[i + k] && 0.0 < r[k].quantity <= lots[r[k].lot].remaining
    ensures forall k :: 0 <= k < |r| - 1 ==> r[k].quantity == lots[r[k].lot].remaining
    decreases |ids| - i
  {
    if i == |ids| || q <= 0.0 then []
    else
      var consumed := MinReal(lots[ids[i]].remaining, q);
      [Take(ids[i], consumed)] + Plan(lots, ids, i + 1, q - consumed)
  }

  function FefoPlan(lots: seq<Lot>, item: Item, q: real, today: int): (r: seq<Take>)
  {
    FefoIsDrawable(lots, item, today);
    Plan(lots, FefoOrder(lots, item, today), 0, q)
  }

  function SumTakes(takes: seq<Take>): real {
    if takes == [] then 0.0 else takes[0].quantity + SumTakes(takes[1..])
  }

  function TakenFrom(takes: seq<Take>, lot: LotId): real {
    if takes == [] then 0.0
    else (if takes[0].lot == lot then takes[0].quantity else 0.0) + TakenFrom(takes[1..], lot)
  }

  /** The lots after the given amounts left them. */
  function AfterTakes(lots: seq<Lot>, takes: seq<Take>): (r: seq<Lot>)
    ensures |r| == |lots|
  {
    seq(|lots|, l requires 0 <= l < |lots| =>
      lots[l].(remaining := lots[l].remaining - TakenFrom(takes, l)))
  }

  lemma {:induction false} TakenFromOutside(takes: seq<Take>, lot: LotId)
    requires forall t :: t in takes ==> t.lot != lot
    ensures TakenFrom(takes, lot) == 0.0
  {
    if takes != [] {
      assert takes[0] in takes;
      TakenFromOutside(takes[1..], lot);
    }
  }

  lemma {:induction false} TakenFromAppend(takes: seq<Take>, more: Take, lot: LotId)
    ensures TakenFrom(takes + [more], lot) == TakenFrom(takes, lot) + if more.lot == lot then more.quantity else 0.0
  {
    if takes == [] {
      assert takes + [more] == [more];
    } else {
      assert (takes + [more])[1..] == takes[1..] + [more];
      TakenFromAppend(takes[1..], more, lot);
    }
  }

  lemma AfterOneMoreTake(lots: seq<Lot>, takes: seq<Take>, t: Take)
    requires t.lot < |lots|
    ensures var before := AfterTakes(lots, takes);
            AfterTakes(lots, takes + [t]) ==
              before[t.lot := before[t.lot].(remaining := before[t.lot].remaining - t.quantity)]
  {
    forall l | 0 <= l < |lots|
      ensures TakenFrom(takes + [t], l) == TakenFrom(takes, l) + if t.lot == l then t.quantity else 0.0
    {
      TakenFromAppend(takes, t, l);
    }
  }

  lemma {:induction false} TakenFromOne(takes: seq<Take>, k: nat)
    requires k < |takes|
    requires forall i :: 0 <= i < |takes| && i != k ==> takes[i].lot != takes[k].lot
    ensures TakenFrom(takes, takes[k].lot) == takes[k].quantity
  {
    if k == 0 {
      TakenFromOutside(takes[1..], takes[0].lot);
    } else {
      TakenFromOne(takes[1..], k - 1);
    }
  }

  /** A plan draws on each lot once. */
  lemma TakenByPlan(lots: seq<Lot>, ids: seq<LotId>, q: real, k: nat)
    requires Drawable(lots, ids) && k < |ids|
    ensures var plan := Plan(lots, ids, 0, q);
            TakenFrom(plan, ids[k]) == if k < |plan| then plan[k].quantity else 0.0
  {
    var plan := Plan(lots, ids, 0, q);
    if k < |plan| {
      TakenFromOne(plan, k);
    } else {
      TakenFromOutside(plan, ids[k]);
    }
  }

  lemma {:induction false} PlanTakesWhatThereIs(lots: seq<Lot>, ids: seq<LotId>, i: nat, q: real)
    requires Drawable(lots, ids) && i <= |ids| && q >= 0.0
    ensures SumTakes(Plan(lots, ids, i, q)) == MinReal(q, Total(lots, ids, i))
    decreases |ids| - i
  {
    if i < |ids| {
      PlanTakesWhatThereIs(lots, ids, i + 1, q - MinReal(lots[ids[i]].remaining, q));
    }
  }

  /** What a consumer takes comes from consumable lots of its item. */
  lemma FefoTakesFromItem(lots: seq<Lot>, item: Item, q: real, today: int, t: Take)
    requires t in FefoPlan(lots, item, q, today)
    ensures t.lot < |lots| && Consumable(lots[t.lot], item, today)
    ensures 0.0 < t.quantity <= lots[t.lot].remaining
  {
    var ids := FefoOrder(lots, item, today);
    var plan := FefoPlan(lots, item, q, today);
    FefoIsDrawable(lots, item, today);
    var i :| 0 <= i < |plan| && plan[i] == t;
    assert ids[i] in ids;
  }

  lemma NotConsumableIsNotTaken(lots: seq<Lot>, item: Item, q: real, today: int, l: LotId)
    requires l < |lots| && !Consumable(lots[l], item, today)
    ensures TakenFrom(FefoPlan(lots, item, q, today), l) == 0.0
  {
    var plan := FefoPlan(lots, item, q, today);
    forall t | t in plan ensures t.lot != l {
      FefoTakesFromItem(lots, item, q, today, t);
    }
    TakenFromOutside(plan, l);
  }

  lemma ConsumableIsTakenWithin(lots: seq<Lot>, item: Item, q: real, today: int, l: LotId)
    requires l < |lots| && Consumable(lots[l], item, today)
    ensures 0.0 <= TakenFrom(FefoPlan(lots, item, q, today), l) <= lots[l].remaining
  {
    var ids := FefoOrder(lots, item, today);
    FefoIsDrawable(lots, item, today);
    assert l in ids;
    var k :| 0 <= k < |ids| && ids[k] == l;
    TakenByPlan(lots, ids, q, k);
  }

  /** First expired, first out: a consumer takes exactly what it asks for or all there is; a lot is touched
      only once every lot before it is empty; expired lots and other items' lots stay as they are. */
  lemma FefoDrainsInOrder(lots: seq<Lot>, item: Item, q: real, today: int)
    requires q >= 0.0
    ensures var ids := FefoOrder(lots, item, today);
            var plan := FefoPlan(lots, item, q, today);
            var after := AfterTakes(lots, plan);
            && Drawable(lots, ids)
            && SumTakes(plan) == MinReal(q, Total(lots, ids, 0))
            && (forall l :: 0 <= l < |lots| && !Consumable(lots[l], item, today) ==> after[l] == lots[l])
            && (forall i, j :: 0 <= i < j < |ids| && after[ids[j]].remaining < lots[ids[j]].remaining ==>
                  after[ids[i]].remaining == 0.0)
  {
    var ids := FefoOrder(lots, item, today);
    var plan := FefoPlan(lots, item, q, today);
    var after := AfterTakes(lots, plan);
    FefoIsDrawable(lots, item, today);
    PlanTakesWhatThereIs(lots, ids, 0, q);
    forall l | 0 <= l < |lots| && !Consumable(lots[l], item, today) ensures after[l] == lots[l] {
      NotConsumableIsNotTaken(lots, item, q, today, l);
    }
    forall i, j | 0 <= i < j < |ids| && after[ids[j]].remaining < lots[ids[j]].remaining
      ensures after[ids[i]].remaining == 0.0
    {
      EarlierAreEmpty(lots, ids, q, i, j);
    }
  }

  lemma EarlierAreEmpty(lots: seq<Lot>, ids: seq<LotId>, q: real, i: nat, j: nat)
    requires q >= 0.0 && Drawable(lots, ids) && i < j < |ids|
    requires AfterTakes(lots, Plan(lots, ids, 0, q))[ids[j]].remaining < lots[ids[j]].remaining
    ensures AfterTakes(lots, Plan(lots, ids, 0, q))[ids[i]].remaining == 0.0
  {
    TakenByPlan(lots, ids, q, i);
    TakenByPlan(lots, ids, q, j);
  }

  /** A lot of the item that may still be used: it holds something and its last day has not passed. */
  predicate IsUsable(lot: Lot, item: Item, today: int) {
    lot.item == item && lot.remaining > 0.0 && (lot.expiresAt.Some? ==> lot.expiresAt.value >= today)
  }

  /** A dated lot before an undated one, then the nearer date, then the older row, then the smaller id. */
  predicate GoesFirst(lots: seq<Lot>, p: LotId, l: LotId)
    requires p < |lots| && l < |lots|
  {
    || (lots[p].expiresAt.Some? && lots[l].expiresAt.None?)
    || (lots[p].expiresAt.Some? && lots[l].expiresAt.Some? && lots[p].expiresAt.value < lots[l].expiresAt.value)
    || (lots[p].expiresAt == lots[l].expiresAt && lots[p].createdAt < lots[l].createdAt)
    || (lots[p].expiresAt == lots[l].expiresAt && lots[p].createdAt == lots[l].createdAt && p < l)
  }

  /** Of two lots that may be used, nothing leaves the later one before the earlier one is empty. */
  lemma FirstExpiredFirstOut(lots: seq<Lot>, item: Item, q: real, today: int, p: LotId, l: LotId)
    requires q >= 0.0 && p < |lots| && l < |lots| && GoesFirst(lots, p, l)
    requires IsUsable(lots[p], item, today) && IsUsable(lots[l], item, today)
    ensures var after := AfterTakes(lots, FefoPlan(lots, item, q, today));
            after[l].remaining < lots[l].remaining ==> after[p].remaining == 0.0
  {
    var ids := FefoOrder(lots, item, today);
    FefoDrainsInOrder(lots, item, q, today);
    assert p in ids && l in ids;
    var i :| 0 <= i < |ids| && ids[i] == p;
    var j :| 0 <= j < |ids| && ids[j] == l;
    assert j < i ==> Precedes(lots, l, p);
  }

  /** A lot that may not be used stays as it is, and a consumer never gets more than it asks for. */
  lemma OthersAreLeftAlone(lots: seq<Lot>, item: Item, q: real, today: int, l: LotId)
    requires q >= 0.0 && l < |lots|
    ensures var plan := FefoPlan(lots, item, q, today);
            var after := AfterTakes(lots, plan)[l];
            && SumTakes(plan) <= q
            && after == lots[l].(remaining := after.remaining)
            && (!IsUsable(lots[l], item, today) ==> after == lots[l])
  {
    FefoDrainsInOrder(lots, item, q, today);
  }

  /** A consumer gets less than it asks for only when every lot that may be used ends up empty. */
  lemma ShortfallEmptiesAll(lots: seq<Lot>, item: Item, q: real, today: int, l: LotId)
    requires q >= 0.0 && l < |lots| && IsUsable(lots[l], item, today)
    requires SumTakes(FefoPlan(lots, item, q, today)) < q
    ensures AfterTakes(lots, FefoPlan(lots, item, q, today))[l].remaining == 0.0
  {
    var ids := FefoOrder(lots, item, today);
    FefoIsDrawable(lots, item, today);
    assert l in ids;
    var j :| 0 <= j < |ids| && ids[j] == l;
    PlanTakesWhatThereIs(lots, ids, 0, q);
    AmplePlanTakesAll(lots, ids, 0, q, j);
    TakenByPlan(lots, ids, q, j);
  }

  lemma {:induction false} AmplePlanTakesAll(lots: seq<Lot>, ids: seq<LotId>, i: nat, q: real, k: nat)
    requires Drawable(lots, ids) && i <= k < |ids| && Total(lots, ids, i) < q
    ensures k - i < |Plan(lots, ids, i, q)| && Plan(lots, ids, i, q)[k - i].quantity == lots[ids[k]].remaining
    decreases |ids| - i
  {
    if k > i {
      AmplePlanTakesAll(lots, ids, i + 1, q - lots[ids[i]].remaining, k);
    }
  }

  /** Everything the first n lots hold of an item. */
  function Held(lots: seq<Lot>, item: Item, n: nat): real
    requires n <= |lots|
  {
    if n == 0 then 0.0 else Held(lots, item, n - 1) + if lots[n - 1].item == item then lots[n - 1].remaining else 0.0
  }

  lemma {:induction false} HeldAfterNothing(lots: seq<Lot>, item: Item, n: nat)
    requires n <= |lots|
    ensures Held(AfterTakes(lots, []), item, n) == Held(lots, item, n)
  {
    if n > 0 {
      HeldAfterNothing(lots, item, n - 1);
    }
  }

  lemma {:induction false} HeldAfterOne(lots: seq<Lot>, item: Item, takes: seq<Take>, n: nat)
    requires n <= |lots| && takes != [] && takes[0].lot < |lots| && lots[takes[0].lot].item == item
    ensures Held(AfterTakes(lots, takes), item, n)
            == Held(AfterTakes(lots, takes[1..]), item, n) - if takes[0].lot < n then takes[0].quantity else 0.0
  {
    if n > 0 {
      HeldAfterOne(lots, item, takes, n - 1);
    }
  }

  lemma {:induction false} HeldAfterTakes(lots: seq<Lot>, item: Item, takes: seq<Take>)
    requires forall k :: 0 <= k < |takes| ==> takes[k].lot < |lots| && lots[takes[k].lot].item == item
    ensures Held(AfterTakes(lots, takes), item, |lots|) == Held(lots, item, |lots|) - SumTakes(takes)
  {
    if takes == [] {
      HeldAfterNothing(lots, item, |lots|);
    } else {
      HeldAfterTakes(lots, item, takes[1..]);
      HeldAfterOne(lots, item, takes, |lots|);
    }
  }

  /** A lot may only lose some of what it holds, and only if it may be used. */
  predicate IsDrawnOn(before: Lot, after: Lot, item: Item, today: int) {
    && after == before.(remaining := after.remaining)
    && after.remaining <= before.remaining
    && (before.remaining >= 0.0 ==> after.remaining >= 0.0)
    && (!IsUsable(before, item, today) ==> after == before)
  }

  /** What lots there were of an item look like once q units of it are gone: first expired first out, as far as they
      reach. */
  ghost predicate IsDrawn(before: seq<Lot>, after: seq<Lot>, item: Item, q: real, today: int) {
    && |before| <= |after|
    && (forall l: LotId :: l < |before| ==> after[l].item == before[l].item)
    && (forall l: LotId :: l < |before| && before[l].item == item ==> IsDrawnOn(before[l], after[l], item, today))
    && (forall p: LotId, l: LotId ::
          p < |before| && l < |before| && IsUsable(before[p], item, today) && before[l].item == item
          && GoesFirst(before, p, l) && after[l] != before[l]
          ==> after[p].remaining == 0.0)
    && Held(before, item, |before|) - Held(after, item, |before|) <= q
    && (Held(before, item, |before|) - Held(after, item, |before|) < q ==>
          forall l: LotId :: l < |before| && IsUsable(before[l], item, today) ==> after[l].remaining == 0.0)
  }

  predicate OthersStay(before: seq<Lot>, after: seq<Lot>, items: set<Item>) {
    |before| <= |after| && forall l: LotId :: l < |before| && before[l].item !in items ==> after[l] == before[l]
  }

  /** Only the item's lots are drawn on, and as they should be. */
  ghost predicate OnlyDrawn(before: seq<Lot>, after: seq<Lot>, item: Item, q: real, today: int) {
    forall lots :: lots == before ==> IsDrawn(lots, after, item, q, today) && OthersStay(lots, after, {item})
  }

  lemma DrawnLot(lots: seq<Lot>, item: Item, q: real, today: int, l: LotId)
    requires q >= 0.0 && l < |lots|
    ensures IsDrawnOn(lots[l], AfterTakes(lots, FefoPlan(lots, item, q, today))[l], item, today)
  {
    OthersAreLeftAlone(lots, item, q, today, l);
    if Consumable(lots[l], item, today) {
      ConsumableIsTakenWithin(lots, item, q, today, l);
    } else {
      NotConsumableIsNotTaken(lots, item, q, today, l);
    }
  }

  /** Consumption draws the lots of its item as it should, by what the takes add up to, and no other lot. */
  lemma FefoIsDrawn(lots: seq<Lot>, item: Item, q: real, today: int)
    requires q >= 0.0
    ensures var plan := FefoPlan(lots, item, q, today);
            var after := AfterTakes(lots, plan);
            && IsDrawn(lots, after, item, q, today)
            && OthersStay(lots, after, {item})
            && Held(lots, item, |lots|) - Held(after, item, |lots|) == SumTakes(plan)
  {
    var plan := FefoPlan(lots, item, q, today);
    var after := AfterTakes(lots, plan);
    forall k | 0 <= k < |plan| ensures plan[k].lot < |lots| && lots[plan[k].lot].item == item {
      FefoTakesFromItem(lots, item, q, today, plan[k]);
    }
    HeldAfterTakes(lots, item, plan);
    forall l: LotId | l < |lots| ensures IsDrawnOn(lots[l], after[l], item, today) {
      DrawnLot(lots, item, q, today, l);
    }
    forall p: LotId, l: LotId |
      p < |lots| && l < |lots| && IsUsable(lots[p], item, today) && lots[l].item == item && GoesFirst(lots, p, l)
      && after[l] != lots[l]
      ensures after[p].remaining == 0.0
    {
      assert IsDrawnOn(lots[l], after[l], item, today);
      FirstExpiredFirstOut(lots, item, q, today, p, l);
    }
    TakesAreNoMore(lots, item, q, today);
    if SumTakes(plan) < q {
      forall l: LotId | l < |lots| && IsUsable(lots[l], item, today) ensures after[l].remaining == 0.0 {
        ShortfallEmptiesAll(lots, item, q, today, l);
      }
    }
  }

  lemma TakesAreNoMore(lots: seq<Lot>, item: Item, q: real, today: int)
    requires q >= 0.0
    ensures SumTakes(FefoPlan(lots, item, q, today)) <= q
  {
    FefoDrainsInOrder(lots, item, q, today);
  }

  predicate SameLots(a: seq<Lot>, b: seq<Lot>, item: Item, n: nat)
    requires n <= |a| && n <= |b|
  {
    forall l: LotId :: l < n && (a[l].item == item || b[l].item == item) ==> a[l] == b[l]
  }

  lemma {:induction false} SameHeld(a: seq<Lot>, b: seq<Lot>, item: Item, n: nat)
    requires n <= |a| && n <= |b| && SameLots(a, b, item, n)
    ensures Held(a, item, n) == Held(b, item, n)
  {
    if n > 0 {
      SameHeld(a, b, item, n - 1);
    }
  }

  lemma {:induction false} NothingHeldBeyond(lots: seq<Lot>, item: Item, m: nat, n: nat)
    requires m <= n <= |lots| && forall l: LotId :: m <= l < n ==> lots[l].item != item
    ensures Held(lots, item, n) == Held(lots, item, m)
  {
    if m < n {
      NothingHeldBeyond(lots, item, m, n - 1);
    }
  }

  /** What happens to other lots before or after does not matter. */
  lemma DrawnInContext(before: seq<Lot>, after: seq<Lot>, start: seq<Lot>, end: seq<Lot>, item: Item, q: real,
                       today: int)
    requires IsDrawn(before, after, item, q, today) && |start| <= |before| && |start| <= |end|
    requires SameLots(start, before, item, |start|) && SameLots(end, after, item, |start|)
    requires forall l: LotId :: |start| <= l < |before| ==> before[l].item != item
    requires forall l: LotId :: l < |start| ==> end[l].item == start[l].item
    ensures IsDrawn(start, end, item, q, today)
  {
    SameHeld(start, before, item, |start|);
    SameHeld(end, after, item, |start|);
    NothingHeldBeyond(before, item, |start|, |before|);
    NothingHeldBeyond(after, item, |start|, |before|);
    forall l: LotId | l < |start| && start[l].item == item ensures IsDrawnOn(start[l], end[l], item, today) {
      assert IsDrawnOn(before[l], after[l], item, today);
    }
  }

  /** No lot is drawn below zero. */
  lemma TakesStayWithin(lots: seq<Lot>, item: Item, q: real, today: int, l: LotId)
    requires l < |lots| && lots[l].remaining >= 0.0
    ensures 0.0 <= TakenFrom(FefoPlan(lots, item, q, today), l) <= lots[l].remaining
  {
    if Consumable(lots[l], item, today) {
      ConsumableIsTakenWithin(lots, item, q, today, l);
    } else {
      NotConsumableIsNotTaken(lots, item, q, today, l);
    }
  }

  // ---------------------------------------------------------------- sellable stock

  /** What the expired lots among the first n still hold for an item. */
  function ExpiredHeld(lots: seq<Lot>, item: Item, today: int, n: nat): (r: real)
    requires n <= |lots|
    ensures r >= 0.0
  {
    if n == 0 then 0.0
    else
      ExpiredHeld(lots, item, today, n - 1)
      + if IsExpiredStock(lots[n - 1], item, today) then lots[n - 1].remaining else 0.0
  }

  predicate IsExpiredStock(lot: Lot, item: Item, today: int) {
    lot.item == item && lot.remaining > 0.0 && Expired(lot, today)
  }

  /** Stock less each expired lot in turn, never going below zero; untouched when no lot has expired. */
  function SellableUpTo(lots: seq<Lot>, item: Item, stock: real, today: int, n: nat): real
    requires n <= |lots|
  {
    if n == 0 then stock
    else
      var before := SellableUpTo(lots, item, stock, today, n - 1);
      if IsExpiredStock(lots[n - 1], item, today) then MaxReal(0.0, before - lots[n - 1].remaining) else before
  }

  function Sellable(lots: seq<Lot>, item: Item, stock: real, today: int): real {
    SellableUpTo(lots, item, stock, today, |lots|)
  }

  method ComputeSellable(lots: seq<Lot>, item: Item, stock: real, today: int) returns (sellable: real)
    ensures sellable == Sellable(lots, item, stock, today)
  {
    sellable := stock;
    for n := 0 to |lots|
      invariant sellable == SellableUpTo(lots, item, stock, today, n)
    {
      if IsExpiredStock(lots[n], item, today) {
        sellable := MaxReal(0.0, sellable - lots[n].remaining);
      }
    }
  }

  lemma {:induction false} SellableClosedForm(lots: seq<Lot>, item: Item, stock: real, today: int, n: nat)
    requires n <= |lots|
    ensures var held := ExpiredHeld(lots, item, today, n);
            var sellable := SellableUpTo(lots, item, stock, today, n);
            sellable == if held == 0.0 then stock else MaxReal(0.0, stock - held)
  {
    if n > 0 {
      SellableClosedForm(lots, item, stock, today, n - 1);
    }
  }

  /** A positive quantity is sellable exactly when the stock covers it on top of everything expired. */
  lemma SellableCovers(lots: seq<Lot>, item: Item, stock: real, today: int, q: real)
    requires q > 0.0
    ensures q <= Sellable(lots, item, stock, today) <==> q + ExpiredHeld(lots, item, today, |lots|) <= stock
  {
    SellableClosedForm(lots, item, stock, today, |lots|);
  }
}
