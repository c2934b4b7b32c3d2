/** What any run of transactions, in any order, leaves true of stock, lots, orders and histories. */
module Runs {
  import opened Wrappers
  import opened Orders
  import opened Lots
  import opened Requests
  import opened Capacity
  import opened Ledger
  import opened Transactions

  function Run(steps: seq<Step>): State {
    if steps == [] then EMPTY else Apply(Run(steps[..|steps| - 1]), steps[|steps| - 1])
  }

  lemma {:induction false} EveryRunIsSound(steps: seq<Step>)
    ensures Sound(Run(steps))
  {
    if steps != [] {
      EveryRunIsSound(steps[..|steps| - 1]);
      StepIsSound(Run(steps[..|steps| - 1]), steps[|steps| - 1]);
    } else {
      assert Accounts(EMPTY, Everywhere);
    }
  }

  // ---------------------------------------------------------------- stock accounting

  /** Sales, productions, receptions, adjustments and losses of an article. */
  function OwnMovements(movements: seq<Movement>, article: nat): real {
    if movements == [] then 0.0
    else
      var m := movements[|movements| - 1];
      OwnMovements(movements[..|movements| - 1], article)
      + if m.order.None? && m.item == Article(article) then m.delta else 0.0
  }

  /** What the first n orders still keep of an article. */
  function LiveQuantity(orders: seq<Order>, n: nat, article: nat): real
    requires n <= |orders|
  {
    if n == 0 then 0.0
    else
      var o := orders[n - 1];
      LiveQuantity(orders, n - 1, article)
      + if o.status == Annulee then 0.0 else LineQuantity(o.lines, 0, |o.lines|, article)
  }

  function OrderDeltas(movements: seq<Movement>, n: nat, article: nat): real {
    if n == 0 then 0.0 else OrderDeltas(movements, n - 1, article) + OrderDelta(movements, n - 1, article)
  }

  lemma {:induction false} OneMovementMoreOrLess(movements: seq<Movement>, n: nat, article: nat)
    requires movements != []
    ensures var last := |movements| - 1;
            var m := movements[last];
            OrderDeltas(movements, n, article) ==
              OrderDeltas(movements[..last], n, article)
              + if m.order.Some? && m.order.value < n && m.item == Article(article) then m.delta else 0.0
  {
    if n > 0 {
      OneMovementMoreOrLess(movements, n - 1, article);
    }
  }

  /** Every movement is either an order's or the article's own. */
  lemma {:induction false} MovementsSplit(movements: seq<Movement>, n: nat, article: nat)
    requires forall m :: m in movements && m.order.Some? ==> m.order.value < n
    ensures SumDeltas(movements, Article(article)) ==
              OwnMovements(movements, article) + OrderDeltas(movements, n, article)
  {
    if movements == [] {
      NoDeltas(n, article);
    } else {
      var last := |movements| - 1;
      assert movements[last] in movements;
      MovementsSplit(movements[..last], n, article);
      OneMovementMoreOrLess(movements, n, article);
    }
  }

  lemma {:induction false} NoDeltas(n: nat, article: nat)
    ensures OrderDeltas([], n, article) == 0.0
  {
    if n > 0 {
      NoDeltas(n - 1, article);
    }
  }

  lemma {:induction false} DeltasAreLive(s: State, n: nat, article: nat)
    requires OrdersBalance(s, Everywhere) && n <= |s.orders|
    ensures OrderDeltas(s.movements, n, article) == -LiveQuantity(s.orders, n, article)
  {
    if n > 0 {
      DeltasAreLive(s, n - 1, article);
    }
  }

  /** In every run an item's stock is the sum of its movements, and an article's stock is its own movements
      less what the orders not cancelled keep of it. */
  lemma StockIsAccounted(steps: seq<Step>)
    ensures var s := Run(steps);
            && (forall item :: item in s.stock ==> s.stock[item] == SumDeltas(s.movements, item))
            && (forall a: nat :: Article(a) in s.stock ==>
                  s.stock[Article(a)] == OwnMovements(s.movements, a) - LiveQuantity(s.orders, |s.orders|, a))
  {
    var s := Run(steps);
    EveryRunIsSound(steps);
    assert Accounts(s, Everywhere);
    forall a: nat | Article(a) in s.stock
      ensures s.stock[Article(a)] == OwnMovements(s.movements, a) - LiveQuantity(s.orders, |s.orders|, a)
    {
      MovementsSplit(s.movements, |s.orders|, a);
      DeltasAreLive(s, |s.orders|, a);
    }
  }

  /** Whatever paths met on an order, a cancelled one has given everything back exactly once, and a live one
      has taken exactly its lines. */
  lemma OrdersAreGivenBackOnce(steps: seq<Step>, o: nat)
    requires o < |Run(steps).orders|
    ensures var s := Run(steps);
            forall a: nat :: OrderDelta(s.movements, o, a) ==
              if s.orders[o].status == Annulee then 0.0
              else -LineQuantity(s.orders[o].lines, 0, |s.orders[o].lines|, a)
    ensures var s := Run(steps);
            s.orders[o].status == Annulee ==> forall a :: a in s.allocations && a.order == o ==> a.restored
  {
    EveryRunIsSound(steps);
    assert Accounts(Run(steps), Everywhere);
  }

  /** In every run what left a lot is held by an order or was taken for good, so 0 <= remaining <= initial. */
  lemma LotsAreConserved(steps: seq<Step>, l: LotId)
    requires l < |Run(steps).lots|
    ensures var s := Run(steps);
            && |s.taken| == |s.lots|
            && s.lots[l].remaining + Unrestored(s.allocations, l) + s.taken[l] == s.lots[l].initial
            && 0.0 <= s.lots[l].remaining <= s.lots[l].initial
  {
    EveryRunIsSound(steps);
    var s := Run(steps);
    assert Accounts(s, Everywhere);
    assert LotBalances(s, l);
    forall a | a in s.allocations ensures a.quantity > 0.0 {
      assert WellFormedAllocation(s, a);
    }
    HoldingsAreNonNegative(s.allocations, 0, 0, l);
  }

  /** Every line of every order is split exactly between the lots that fed it and its pre-ordered quantity. */
  lemma ReservationsAreSplit(steps: seq<Step>, o: nat, k: nat)
    requires o < |Run(steps).orders| && k < |Run(steps).orders[o].lines|
    ensures var s := Run(steps);
            var line := s.orders[o].lines[k];
            && Allocated(s.allocations, o, k) + line.preordered == line.quantity as real
            && 0.0 <= line.preordered <= line.quantity as real
  {
    EveryRunIsSound(steps);
    var s := Run(steps);
    assert Accounts(s, Everywhere);
    assert LineIsSplit(s, o, k);
    forall a | a in s.allocations ensures a.quantity > 0.0 {
      assert WellFormedAllocation(s, a);
    }
    AllocatedIsNonNegative(s.allocations, o, k);
  }

  lemma {:induction false} AllocatedIsNonNegative(allocations: seq<Allocation>, o: nat, k: nat)
    requires forall a :: a in allocations ==> a.quantity > 0.0
    ensures Allocated(allocations, o, k) >= 0.0
  {
    if allocations != [] {
      assert allocations[|allocations| - 1] in allocations;
      AllocatedIsNonNegative(allocations[..|allocations| - 1], o, k);
    }
  }

  // ---------------------------------------------------------------- concurrent releases

  /** Whichever of two release paths comes first, the other finds nothing left to do and the rows end up the same. */
  lemma ReleasePathsMeet(s: State, o: nat, first: ReleaseOptions, second: ReleaseOptions)
    requires CanRelease(s, o, first) && IsReleasePath(second)
    ensures Release(Release(s, o, first), o, second) == Release(s, o, first)
    ensures CanRelease(s, o, second) ==> Release(s, o, second) == Release(s, o, first)
  {
    assert Release(s, o, first).orders[o].status == Annulee;
  }

  // ---------------------------------------------------------------- lots along a run

  /** Lots are only added; their initial quantity, item and expiry stay, and what was taken for good never shrinks. */
  ghost predicate LotsMove(s: State, r: State) {
    && |s.lots| <= |r.lots|
    && |s.taken| <= |r.taken|
    && (forall l :: 0 <= l < |s.lots| ==> r.lots[l] == s.lots[l].(remaining := r.lots[l].remaining))
    && (forall l :: 0 <= l < |s.taken| ==> s.taken[l] <= r.taken[l])
  }

  /** LotsMove, under a quantifier so that a proof unfolds it only where it names it. */
  ghost predicate LotsEvolve(s: State, r: State) {
    forall v :: v == r ==> LotsMove(s, v)
  }

  lemma EvolveTwice(s: State, t: State, r: State)
    requires LotsEvolve(s, t) && LotsEvolve(t, r)
    ensures LotsEvolve(s, r)
  {
    assert LotsMove(s, t) && LotsMove(t, r);
  }

  lemma EvolveNot(s: State, r: State)
    requires r.lots == s.lots && r.taken == s.taken
    ensures LotsEvolve(s, r)
  {
  }

  lemma TakenIsNonNegative(lots: seq<Lot>, item: Item, q: real, today: int, l: LotId)
    requires l < |lots|
    ensures TakenFrom(FefoPlan(lots, item, q, today), l) >= 0.0
  {
    if Consumable(lots[l], item, today) {
      ConsumableIsTakenWithin(lots, item, q, today, l);
    } else {
      NotConsumableIsNotTaken(lots, item, q, today, l);
    }
  }

  lemma WithdrawEvolvesLots(s: State, item: Item, q: real, kind: Kind, today: int)
    requires item in s.stock && |s.taken| == |s.lots|
    ensures LotsEvolve(s, Withdraw(s, item, q, kind, today))
    ensures |Withdraw(s, item, q, kind, today).taken| == |Withdraw(s, item, q, kind, today).lots|
  {
    forall l | 0 <= l < |s.lots| ensures s.taken[l] <= Withdraw(s, item, q, kind, today).taken[l] {
      TakenIsNonNegative(s.lots, item, q, today, l);
    }
    assert LotsMove(s, Withdraw(s, item, q, kind, today));
  }

  lemma DepositEvolvesLots(s: State, item: Item, q: real, kind: Kind, expiresAt: Option<int>, now: int)
    requires item in s.stock
    ensures LotsEvolve(s, Deposit(s, item, q, kind, expiresAt, now))
  {
  }

  lemma ReserveLineEvolvesLots(s: State, o: nat, k: nat, today: int)
    requires HasLine(s, o, k)
    ensures LotsEvolve(s, ReserveLine(s, o, k, today))
  {
  }

  lemma {:induction false} ReserveEvolvesLots(s: State, o: nat, n: nat, today: int)
    requires HasLines(s, o) && n <= |s.orders[o].lines|
    ensures LotsEvolve(s, ReserveUpTo(s, o, n, today))
  {
    EvolveNot(s, s);
    if n > 0 {
      var before, after := ReserveUpTo(s, o, n - 1, today), ReserveUpTo(s, o, n, today);
      assert after == ReserveLine(before, o, n - 1, today);
      ReserveEvolvesLots(s, o, n - 1, today);
      ReserveLineEvolvesLots(before, o, n - 1, today);
      EvolveTwice(s, before, after);
    }
  }

  lemma ReleaseLineEvolvesLots(s: State, o: nat, k: nat)
    requires HasLine(s, o, k)
    ensures LotsEvolve(s, ReleaseLine(s, o, k))
  {
  }

  lemma {:induction false} ReleaseEvolvesLots(s: State, o: nat, n: nat)
    requires HasLines(s, o) && n <= |s.orders[o].lines|
    ensures LotsEvolve(s, ReleaseUpTo(s, o, n))
  {
    EvolveNot(s, s);
    if n > 0 {
      var before := ReleaseUpTo(s, o, n - 1);
      ReleaseEvolvesLots(s, o, n - 1);
      ReleaseLineEvolvesLots(before, o, n - 1);
      EvolveTwice(s, before, ReleaseUpTo(s, o, n));
    }
  }

  lemma {:induction false} SellEvolvesLots(s: State, lines: seq<Line>, n: nat, today: int)
    requires n <= |lines| && KnownArticles(s, lines) && |s.taken| == |s.lots|
    ensures LotsEvolve(s, SellUpTo(s, lines, n, today))
    ensures |SellUpTo(s, lines, n, today).taken| == |SellUpTo(s, lines, n, today).lots|
  {
    EvolveNot(s, s);
    if n > 0 {
      var before := SellUpTo(s, lines, n - 1, today);
      SellEvolvesLots(s, lines, n - 1, today);
      WithdrawEvolvesLots(before, Article(lines[n - 1].article), lines[n - 1].quantity as real, Vente, today);
      EvolveTwice(s, before, SellUpTo(s, lines, n, today));
    }
  }

  lemma {:induction false} ConsumeEvolvesLots(s: State, recipe: seq<Ingredient>, count: nat, n: nat, today: int)
    requires n <= |recipe| && Known(s.stock, recipe) && |s.taken| == |s.lots|
    ensures LotsEvolve(s, ConsumeUpTo(s, recipe, count, n, today))
    ensures |ConsumeUpTo(s, recipe, count, n, today).taken| == |ConsumeUpTo(s, recipe, count, n, today).lots|
  {
    EvolveNot(s, s);
    if n > 0 {
      var before := ConsumeUpTo(s, recipe, count, n - 1, today);
      ConsumeEvolvesLots(s, recipe, count, n - 1, today);
      WithdrawEvolvesLots(before, Matiere(recipe[n - 1].mp), Need(recipe[n - 1], count), Production, today);
      EvolveTwice(s, before, ConsumeUpTo(s, recipe, count, n, today));
    }
  }

  lemma StepEvolvesLots(s: State, step: Step)
    requires Sound(s)
    ensures LotsEvolve(s, Apply(s, step))
  {
    assert IsSettled(s);
    assert Accounts(s, Everywhere);
    match step
    case PlaceOrderStep(direct, requests, now, today) => PlaceOrderEvolvesLots(s, direct, requests, now, today);
    case ReleaseStep(o, options) => ReleaseStepEvolvesLots(s, o, options);
    case ChangeStatusStep(o, next, now) => ReleaseStepEvolvesLots(s, o, STAFF_CANCEL);
    case SellStep(requests, today) => SellStepEvolvesLots(s, requests, today);
    case AdjustStep(item, delta, kind, expiresAt, now, today) =>
      AdjustEvolvesLots(s, item, delta, kind, expiresAt, now, today);
    case ProduceStep(article, recipe, count, expiresAt, now, today) =>
      ProduceEvolvesLots(s, article, recipe, count, expiresAt, now, today);
    case _ => OtherStepEvolvesLots(s, step);
  }

  lemma OtherStepEvolvesLots(s: State, step: Step)
    requires Sound(s)
    requires step.AddItemStep? || step.ConfirmStep? || step.AttachSessionStep? || step.LoseStep?
    ensures LotsEvolve(s, Apply(s, step))
  {
    assert IsSettled(s);
    assert Accounts(s, Everywhere);
  }

  lemma PlaceOrderEvolvesLots(s: State, direct: bool, requests: seq<Request>, now: int, today: int)
    ensures LotsEvolve(s, PlaceOrder(s, direct, requests, now, today))
  {
    EvolveNot(s, s);
    if CanPlace(s, requests) {
      var placed := s.(orders := s.orders + [NewOrder(direct, Aggregate(requests), now)]);
      EvolveNot(s, placed);
      ReserveEvolvesLots(placed, |s.orders|, |Aggregate(requests)|, today);
      EvolveTwice(s, placed, PlaceOrder(s, direct, requests, now, today));
    }
  }

  lemma SellStepEvolvesLots(s: State, requests: seq<Request>, today: int)
    requires |s.taken| == |s.lots|
    ensures LotsEvolve(s, Sell(s, requests, today))
  {
    EvolveNot(s, s);
    if CanSell(s, requests, today) {
      SellEvolvesLots(s, Aggregate(requests), |Aggregate(requests)|, today);
    }
  }

  lemma AdjustEvolvesLots(s: State, item: Item, delta: real, kind: Kind, expiresAt: Option<int>, now: int, today: int)
    requires |s.taken| == |s.lots|
    ensures LotsEvolve(s, Adjust(s, item, delta, kind, expiresAt, now, today))
  {
    EvolveNot(s, s);
    if CanAdjust(s, item, delta) {
      WithdrawEvolvesLots(s, item, -delta, kind, today);
      DepositEvolvesLots(s, item, delta, kind, expiresAt, now);
    }
  }

  lemma ProduceEvolvesLots(s: State, article: nat, recipe: seq<Ingredient>, count: nat, expiresAt: Option<int>,
                           now: int, today: int)
    requires |s.taken| == |s.lots|
    ensures LotsEvolve(s, Produce(s, article, recipe, count, expiresAt, now, today))
  {
    EvolveNot(s, s);
    if MayProduce(s, article, recipe, count, today) {
      var consumed := ConsumeUpTo(s, recipe, count, |recipe|, today);
      ConsumeEvolvesLots(s, recipe, count, |recipe|, today);
      DepositEvolvesLots(consumed, Article(article), count as real, Production, expiresAt, now);
      EvolveTwice(s, consumed, Produce(s, article, recipe, count, expiresAt, now, today));
    }
  }

  lemma ReleaseStepEvolvesLots(s: State, o: nat, options: ReleaseOptions)
    ensures LotsEvolve(s, Release(s, o, options))
  {
    EvolveNot(s, s);
    if CanRelease(s, o, options) {
      var restored := ReleaseUpTo(s, o, |s.orders[o].lines|);
      ReleaseEvolvesLots(s, o, |s.orders[o].lines|);
      if o !in s.releases {
        EvolveNot(restored, Release(s, o, options));
        EvolveTwice(s, restored, Release(s, o, options));
      } else {
        EvolveNot(s, Release(s, o, options));
      }
    }
  }

  /** What LotsAreConserved counts with is stable: along a run a lot keeps its initial quantity, and what was taken
      from it for good only grows. */
  lemma {:induction false} LotsNeverGoBack(steps: seq<Step>, n: nat)
    requires n <= |steps|
    ensures LotsEvolve(Run(steps[..n]), Run(steps))
    decreases |steps|
  {
    if n == |steps| {
      assert steps[..n] == steps;
      EvolveNot(Run(steps), Run(steps));
    } else {
      var earlier := steps[..|steps| - 1];
      assert earlier[..n] == steps[..n];
      LotsNeverGoBack(earlier, n);
      EveryRunIsSound(earlier);
      StepEvolvesLots(Run(earlier), steps[|steps| - 1]);
      EvolveTwice(Run(steps[..n]), Run(earlier), Run(steps));
    }
  }

  // ---------------------------------------------------------------- histories

  /** In every run a history is a legal path to the current status, at most three changes long; the confirmation
      date is set exactly when it met Nouvelle; a release row exists exactly for a cancelled order. */
  lemma HistoriesAreFaithful(steps: seq<Step>, o: nat)
    requires o < |Run(steps).orders|
    ensures var s := Run(steps);
            && Faithful(s.orders[o])
            && |s.orders[o].history| <= 4
            && (o in s.releases <==> s.orders[o].status == Annulee)
  {
    EveryRunIsSound(steps);
    assert IsSettled(Run(steps));
    AtMostThreeChanges(Run(steps).orders[o]);
  }

  /** An order row only grows: its history is extended and a confirmation date is never rewritten. */
  predicate Extends(before: Order, after: Order) {
    && before.history <= after.history
    && (before.confirmedAt.Some? ==> after.confirmedAt == before.confirmedAt)
  }

  predicate OrdersExtend(s: State, r: State) {
    && |s.orders| <= |r.orders|
    && forall o :: 0 <= o < |s.orders| ==> Extends(s.orders[o], r.orders[o])
  }

  lemma StepExtendsOrders(s: State, step: Step)
    requires Sound(s)
    ensures OrdersExtend(s, Apply(s, step))
  {
    assert IsSettled(s);
    var r := Apply(s, step);
    match step
    case PlaceOrderStep(direct, requests, now, today) =>
      if CanPlace(s, requests) {
        PlacingExtendsOrders(s, direct, requests, now, today);
      }
    case ConfirmStep(o, session, now) =>
      if o < |s.orders| && s.orders[o].status == PaiementEnAttente {
        ConfirmPaidStaysFaithful(s.orders[o], session, now);
      }
    case ChangeStatusStep(o, next, now) =>
      if next == Annulee {
        ReleaseExtendsOrders(s, o, STAFF_CANCEL);
      } else if o < |s.orders| {
        TransitionStaysFaithful(s.orders[o], next, now);
      }
    case AddItemStep(_) =>
    case ReleaseStep(o, options) =>
      ReleaseExtendsOrders(s, o, options);
    case AttachSessionStep(_, _) =>
    case SellStep(_, _) =>
    case AdjustStep(_, _, _, _, _, _) =>
    case ProduceStep(_, _, _, _, _, _) =>
    case LoseStep(_, _) =>
  }

  lemma ReleaseExtendsOrders(s: State, o: nat, options: ReleaseOptions)
    ensures OrdersExtend(s, Release(s, o, options))
  {
  }

  lemma PlacingExtendsOrders(s: State, direct: bool, requests: seq<Request>, now: int, today: int)
    requires CanPlace(s, requests)
    ensures OrdersExtend(s, PlaceOrder(s, direct, requests, now, today))
  {
    var order := NewOrder(direct, Aggregate(requests), now);
    var placed := s.(orders := s.orders + [order]);
    var r := PlaceOrder(s, direct, requests, now, today);
    forall o | 0 <= o < |s.orders| ensures r.orders[o] == s.orders[o] {
      ReserveFrame(placed, |s.orders|, |order.lines|, today, o);
    }
  }

  /** A confirmation date, once set, is the one every later state shows. */
  lemma {:induction false} ConfirmationIsNeverRewritten(steps: seq<Step>, n: nat, o: nat)
    requires n <= |steps| && o < |Run(steps[..n]).orders|
    ensures o < |Run(steps).orders|
    ensures Extends(Run(steps[..n]).orders[o], Run(steps).orders[o])
    decreases |steps|
  {
    if n == |steps| {
      assert steps[..n] == steps;
    } else {
      var earlier := steps[..|steps| - 1];
      assert earlier[..n] == steps[..n];
      ConfirmationIsNeverRewritten(earlier, n, o);
      EveryRunIsSound(earlier);
      StepExtendsOrders(Run(earlier), steps[|steps| - 1]);
    }
  }

  // ---------------------------------------------------------------- sales and productions leave expired stock covered

  lemma {:induction false} TakesKeepExpired(
      lots: seq<Lot>, item: Item, q: real, today: int, other: Item, n: nat)
    requires n <= |lots|
    ensures ExpiredHeld(AfterTakes(lots, FefoPlan(lots, item, q, today)), other, today, n) ==
              ExpiredHeld(lots, other, today, n)
  {
    if n > 0 {
      TakesKeepExpired(lots, item, q, today, other, n - 1);
      if Expired(lots[n - 1], today) {
        NotConsumableIsNotTaken(lots, item, q, today, n - 1);
      }
    }
  }

  lemma {:induction false} SalesKeepExpired(s: State, lines: seq<Line>, n: nat, today: int, item: Item)
    requires n <= |lines| && KnownArticles(s, lines)
    ensures var r := SellUpTo(s, lines, n, today);
            && |r.lots| == |s.lots|
            && ExpiredHeld(r.lots, item, today, |r.lots|) == ExpiredHeld(s.lots, item, today, |s.lots|)
  {
    if n > 0 {
      SalesKeepExpired(s, lines, n - 1, today, item);
      var t := SellUpTo(s, lines, n - 1, today);
      TakesKeepExpired(t.lots, Article(lines[n - 1].article), lines[n - 1].quantity as real, today, item, |t.lots|);
    }
  }

  lemma {:induction false} ProductionKeepsExpired(
      s: State, recipe: seq<Ingredient>, count: nat, n: nat, today: int, item: Item)
    requires n <= |recipe| && Known(s.stock, recipe)
    ensures var r := ConsumeUpTo(s, recipe, count, n, today);
            && |r.lots| == |s.lots|
            && ExpiredHeld(r.lots, item, today, |r.lots|) == ExpiredHeld(s.lots, item, today, |s.lots|)
  {
    if n > 0 {
      ProductionKeepsExpired(s, recipe, count, n - 1, today, item);
      var t := ConsumeUpTo(s, recipe, count, n - 1, today);
      TakesKeepExpired(t.lots, Matiere(recipe[n - 1].mp), Need(recipe[n - 1], count), today, item, |t.lots|);
    }
  }

  lemma {:induction false} SaleDrawsLine(s: State, lines: seq<Line>, n: nat, today: int, k: nat)
    requires k < n <= |lines| && KnownArticles(s, lines) && OneLinePerArticle(lines)
    ensures var item := Article(lines[k].article);
            SellUpTo(s, lines, n, today).stock[item] == s.stock[item] - lines[k].quantity as real
  {
    var before := SellUpTo(s, lines, n - 1, today);
    var item, last := Article(lines[k].article), Article(lines[n - 1].article);
    assert SellUpTo(s, lines, n, today).stock
           == before.stock[last := before.stock[last] - lines[n - 1].quantity as real];
    if k == n - 1 {
      SellLeavesOthers(s, lines, n - 1, today, item);
    } else {
      SaleDrawsLine(s, lines, n - 1, today, k);
    }
  }

  /** An accepted sale takes from each article exactly what was asked of it in all, and what is left
      still covers every expired lot. */
  lemma SaleLeavesExpiredCovered(s: State, requests: seq<Request>, today: int, a: nat)
    requires CanSell(s, requests, today) && Asked(requests, a)
    ensures var r := Sell(s, requests, today);
            var item := Article(a);
            && item in r.stock
            && r.stock[item] == s.stock[item] - Requested(requests, a) as real
            && r.stock[item] >= ExpiredHeld(r.lots, item, today, |r.lots|)
  {
    var lines := Aggregate(requests);
    AggregateGathers(requests);
    assert Mentions(lines, a);
    var k :| 0 <= k < |lines| && lines[k].article == a;
    QuantityOfLine(lines, k);
    RequestedIsPositive(requests, a);
    SaleDrawsLine(s, lines, |lines|, today, k);
    SellableCovers(s.lots, Article(a), s.stock[Article(a)], today, lines[k].quantity as real);
    SalesKeepExpired(s, lines, |lines|, today, Article(a));
  }

  /** A sale is accepted exactly when, for every article asked for, stock covers what is asked in all on top of
      everything expired. */
  lemma SaleIsAcceptedExactly(s: State, requests: seq<Request>, today: int)
    requires IsSaleRequest(requests)
    ensures CanSell(s, requests, today) <==> forall a: nat :: Asked(requests, a) ==> SaleCovers(s, requests, today, a)
  {
    var lines := Aggregate(requests);
    AggregateGathers(requests);
    AggregatesArePositive(requests);
    if CanSell(s, requests, today) {
      forall a: nat | Asked(requests, a) ensures SaleCovers(s, requests, today, a) {
        assert Mentions(lines, a);
        var k :| 0 <= k < |lines| && lines[k].article == a;
        QuantityOfLine(lines, k);
        SellableCovers(s.lots, Article(a), s.stock[Article(a)], today, lines[k].quantity as real);
      }
    }
    if forall a: nat :: Asked(requests, a) ==> SaleCovers(s, requests, today, a) {
      forall k | 0 <= k < |lines| ensures LineIsCovered(s, lines, today, k) {
        var a := lines[k].article;
        assert Mentions(lines, a);
        QuantityOfLine(lines, k);
        assert SaleCovers(s, requests, today, a);
        SellableCovers(s.lots, Article(a), s.stock[Article(a)], today, lines[k].quantity as real);
      }
      assert KnownArticles(s, lines) by {
        forall k | 0 <= k < |lines| ensures Article(lines[k].article) in s.stock {
          assert LineIsCovered(s, lines, today, k);
        }
      }
      forall k | 0 <= k < |lines|
        ensures lines[k].quantity as real
                <= Sellable(s.lots, Article(lines[k].article), s.stock[Article(lines[k].article)], today)
      {
        assert LineIsCovered(s, lines, today, k);
      }
    }
  }

  /** Nothing else can be wrong with a sale but that it asks for nothing, or somewhere for no article or no unit. */
  lemma SaleIsWellFormedExactly(s: State, requests: seq<Request>, today: int)
    ensures CanSell(s, requests, today) <==>
              && requests != []
              && (forall k :: 0 <= k < |requests| ==> requests[k].article != 0 && requests[k].quantity != 0)
              && (forall a: nat :: Asked(requests, a) ==> SaleCovers(s, requests, today, a))
  {
    if IsSaleRequest(requests) {
      SaleIsAcceptedExactly(s, requests, today);
    }
  }

  predicate SaleCovers(s: State, requests: seq<Request>, today: int, a: nat) {
    && Article(a) in s.stock
    && Requested(requests, a) as real + ExpiredHeld(s.lots, Article(a), today, |s.lots|) <= s.stock[Article(a)]
  }

  predicate LineIsCovered(s: State, lines: seq<Line>, today: int, k: nat)
    requires k < |lines|
  {
    var item := Article(lines[k].article);
    item in s.stock && lines[k].quantity as real <= Sellable(s.lots, item, s.stock[item], today)
  }

  lemma {:induction false} QuantityOfLine(lines: seq<Line>, k: nat)
    requires k < |lines| && OneLinePerArticle(lines)
    ensures QuantityOf(lines, lines[k].article) == lines[k].quantity
  {
    if k > 0 {
      assert lines[0].article != lines[k].article;
      QuantityOfLine(lines[1..], k - 1);
    }
  }

  lemma {:induction false} RequestedIsPositive(requests: seq<Request>, a: nat)
    requires forall k :: 0 <= k < |requests| ==> requests[k].quantity > 0
    requires Asked(requests, a)
    ensures Requested(requests, a) > 0
  {
    var n := |requests| - 1;
    if requests[n].article != a {
      var k :| 0 <= k < |requests| && requests[k].article == a;
      assert requests[..n][k].article == a;
      RequestedIsPositive(requests[..n], a);
    }
  }

  lemma ProductIsNotNegative(a: real, b: real)
    requires a >= 0.0 && b >= 0.0
    ensures a * b >= 0.0
  {
  }

  /** A production is accepted for a known article, at least one unit, and a recipe that names each raw material once,
      never for less than nothing, as long as what is on sale of each material covers its need; a material that is not
      needed must not be owed. */
  lemma ProductionIsAcceptedExactly(s: State, article: nat, recipe: seq<Ingredient>, count: nat, today: int)
    ensures MayProduce(s, article, recipe, count, today) <==>
              && Article(article) in s.stock && count > 0
              && (forall i, j :: 0 <= i < j < |recipe| ==> recipe[i].mp != recipe[j].mp)
              && (forall i :: 0 <= i < |recipe| ==> MaterialSuffices(s, recipe[i], count, today))
  {
    forall i | 0 <= i < |recipe| && Matiere(recipe[i].mp) in s.stock && recipe[i].quantity >= 0.0
      ensures MaterialSuffices(s, recipe[i], count, today) <==>
                && recipe[i].quantity * count as real <= SellableOf(s.stock, s.lots, recipe[i].mp, today)
                && recipe[i].quantity * count as real <= s.stock[Matiere(recipe[i].mp)]
    {
      var item, need := Matiere(recipe[i].mp), recipe[i].quantity * count as real;
      ProductIsNotNegative(recipe[i].quantity, count as real);
      if need > 0.0 {
        SellableCovers(s.lots, item, s.stock[item], today, need);
      } else {
        SellableClosedForm(s.lots, item, s.stock[item], today, |s.lots|);
      }
    }
  }

  predicate MaterialSuffices(s: State, ingredient: Ingredient, count: nat, today: int) {
    var item, need := Matiere(ingredient.mp), ingredient.quantity * count as real;
    && item in s.stock && ingredient.quantity >= 0.0
    && (if need > 0.0 then need + ExpiredHeld(s.lots, item, today, |s.lots|) <= s.stock[item] else s.stock[item] >= 0.0)
  }

  /** A production of n units is accepted exactly up to the published capacity; it draws n times the recipe and
      leaves each raw material covering all of its expired lots. */
  lemma ProductionIsExact(s: State, article: nat, recipe: seq<Ingredient>, count: nat, expiresAt: Option<int>,
                          now: int, today: int)
    requires Article(article) in s.stock && Known(s.stock, recipe)
    requires IsRecipe(recipe) && HasPositiveQuantities(recipe) && recipe != [] && count >= 1
    ensures MayProduce(s, article, recipe, count, today) <==> count <= Published(s.stock, s.lots, recipe, today)
    ensures MayProduce(s, article, recipe, count, today) ==>
              var r := Produce(s, article, recipe, count, expiresAt, now, today);
              && r.stock[Article(article)] == s.stock[Article(article)] + count as real
              && forall i :: 0 <= i < |recipe| ==>
                   var item := Matiere(recipe[i].mp);
                   && r.stock[item] == s.stock[item] - Need(recipe[i], count)
                   && r.stock[item] >= ExpiredHeld(r.lots, item, today, |r.lots|)
  {
    CapacityIsExact(s.stock, s.lots, recipe, count, today);
    if MayProduce(s, article, recipe, count, today) {
      var r := Produce(s, article, recipe, count, expiresAt, now, today);
      CoveredPassesUpdates(s.stock, s.lots, recipe, count, today);
      ConsumeLeavesOthers(s, recipe, count, |recipe|, today, Article(article));
      forall i | 0 <= i < |recipe|
        ensures var item := Matiere(recipe[i].mp);
                && r.stock[item] == s.stock[item] - Need(recipe[i], count)
                && r.stock[item] >= ExpiredHeld(r.lots, item, today, |r.lots|)
      {
        var item := Matiere(recipe[i].mp);
        var consumed := ConsumeUpTo(s, recipe, count, |recipe|, today);
        ConsumeDrawsNeed(s, recipe, count, |recipe|, today, i);
        ProductionKeepsExpired(s, recipe, count, |recipe|, today, item);
        DepositKeepsOthersExpired(consumed, Article(article), count as real, expiresAt, now, today, item);
      }
    }
  }

  lemma DepositKeepsOthersExpired(
      s: State, item: Item, q: real, expiresAt: Option<int>, now: int, today: int, other: Item)
    requires item in s.stock && item != other
    ensures var r := Deposit(s, item, q, Production, expiresAt, now);
            ExpiredHeld(r.lots, other, today, |r.lots|) == ExpiredHeld(s.lots, other, today, |s.lots|)
  {
    var r := Deposit(s, item, q, Production, expiresAt, now);
    SamePrefixSameExpired(s.lots, r.lots, other, today, |s.lots|);
  }

  lemma {:induction false} SamePrefixSameExpired(lots: seq<Lot>, more: seq<Lot>, item: Item, today: int, n: nat)
    requires n <= |lots| && lots <= more
    ensures ExpiredHeld(more, item, today, n) == ExpiredHeld(lots, item, today, n)
  {
    if n > 0 {
      SamePrefixSameExpired(lots, more, item, today, n - 1);
    }
  }
}
