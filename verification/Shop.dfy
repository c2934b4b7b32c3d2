/** The stock and order tables as the services update them, each transaction proved against its step. */
module Shop {
  import opened Wrappers
  import opened Orders
  import opened Lots
  import opened Requests
  import opened Capacity
  import opened Ledger
  import opened Transactions

  datatype ReleaseResult = ReleaseResult(released: bool, alreadyReleased: bool, statusChanged: bool)

  datatype CancelError = CancelConflict(current: Status) | NotCancellable(current: Status)

  class Tables {
    var stock: map<Item, real>
    var lots: seq<Lot>
    var movements: seq<Movement>
    var orders: seq<Order>
    var allocations: seq<Allocation>
    var releases: set<nat>
    ghost var taken: seq<real>

    ghost function View(): State
      reads this
    {
      State(stock, lots, movements, orders, allocations, releases, taken)
    }

    /** The accounts of every row hold. */
    ghost predicate Valid()
      reads this
    {
      forall s :: s == View() ==> Sound(s)
    }

    constructor ()
      ensures View() == EMPTY && Valid()
    {
      stock, lots, movements, orders, allocations, releases := map[], [], [], [], [], {};
      taken := [];
      new;
      assert Accounts(EMPTY, Everywhere);
    }

    /** Draws q units on the item's lots, first expired first, and reports what each lot gave. */
    method ConsumeLots(item: Item, q: real, today: int) returns (consumed: seq<Take>)
      modifies this`lots
      ensures consumed == FefoPlan(old(lots), item, q, today)
      ensures lots == AfterTakes(old(lots), consumed)
      ensures q >= 0.0 ==> OnlyDrawn(old(lots), lots, item, q, today)
    {
      if q >= 0.0 {
        FefoIsDrawn(lots, item, q, today);
      }
      var ids := FefoOrder(lots, item, today);
      FefoIsDrawable(lots, item, today);
      consumed := DrawOn(ids, q);
    }

    method DrawOn(ids: seq<LotId>, q: real) returns (consumed: seq<Take>)
      requires Drawable(lots, ids)
      modifies this`lots
      ensures consumed == Plan(old(lots), ids, 0, q)
      ensures lots == AfterTakes(old(lots), consumed)
    {
      ghost var before := lots;
      var remainingToConsume := q;
      consumed := [];
      for i := 0 to |ids|
        invariant |lots| == |before|
        invariant consumed + Plan(before, ids, i, remainingToConsume) == Plan(before, ids, 0, q)
        invariant lots == AfterTakes(before, consumed)
        invariant forall j :: i <= j < |ids| ==> lots[ids[j]] == before[ids[j]]
      {
        if remainingToConsume <= 0.0 {
          return;
        }
        var id := ids[i];
        var quantity := MinReal(lots[id].remaining, remainingToConsume);
        // The conditional update never fails: the row is locked and holds at least what is taken.
        assert lots[id].remaining >= quantity;
        AfterOneMoreTake(before, consumed, Take(id, quantity));
        lots := lots[id := lots[id].(remaining := lots[id].remaining - quantity)];
        remainingToConsume := remainingToConsume - quantity;
        consumed := consumed + [Take(id, quantity)];
      }
    }

    /** Applies a movement that is not an order's to the lots and records it; the stock itself is updated apart. */
    method RecordMovement(item: Item, delta: real, kind: Kind, expiresAt: Option<int>, now: int, today: int)
      modifies this`lots, this`movements, this`taken
      ensures delta < 0.0 ==>
                var takes := FefoPlan(old(lots), item, -delta, today);
                lots == AfterTakes(old(lots), takes) && taken == AddTakes(old(taken), takes)
      ensures delta >= 0.0 ==>
                var dated := delta > 0.0 && expiresAt.Some?;
                && lots == old(lots) + (if dated then [Lot(item, delta, delta, expiresAt, now)] else [])
                && taken == old(taken) + (if dated then [0.0] else [])
      ensures movements == old(movements) + [Movement(item, delta, kind, None)]
    {
      if delta > 0.0 {
        if expiresAt.Some? {
          lots := lots + [Lot(item, delta, delta, expiresAt, now)];
          taken := taken + [0.0];
        }
      } else if delta < 0.0 {
        var consumed := ConsumeLots(item, -delta, today);
        taken := AddTakes(taken, consumed);
      }
      movements := movements + [Movement(item, delta, kind, None)];
    }

    /** Takes every line of an order out of stock and records the lots that feed it. */
    method ReserveCommandeStock(o: nat, today: int)
      requires HasLines(View(), o)
      modifies this
      ensures View() == ReserveUpTo(old(View()), o, |old(orders)[o].lines|, today)
    {
      ghost var before := View();
      var n := |orders[o].lines|;
      for k := 0 to n
        invariant View() == ReserveUpTo(before, o, k, today)
      {
        ReserveLigne(o, k, today);
      }
    }

    method ReserveLigne(o: nat, k: nat, today: int)
      requires HasLine(View(), o, k)
      modifies this
      ensures View() == ReserveLine(old(View()), o, k, today)
    {
      var line := orders[o].lines[k];
      var item, q := Article(line.article), line.quantity as real;
      stock := stock[item := stock[item] - q];
      var consumed := ConsumeLots(item, q, today);
      movements := movements + [Movement(item, -q, ForOrder, Some(o))];
      var preordered := MaxReal(0.0, q - SumTakes(consumed));
      orders := orders[o := orders[o].(lines := orders[o].lines[k := line.(preordered := preordered)])];
      var first := allocations;
      for j := 0 to |consumed|
        invariant allocations == first + AllocationsFor(o, k, consumed)[..j]
        invariant unchanged(`taken) && unchanged(`releases)
        invariant stock == old(stock)[item := old(stock)[item] - q]
        invariant lots == AfterTakes(old(lots), consumed)
        invariant movements == old(movements) + [Movement(item, -q, ForOrder, Some(o))]
        invariant orders == old(orders)[o := old(orders)[o].(
                    lines := old(orders)[o].lines[k := line.(preordered := preordered)])]
      {
        allocations := allocations + [Allocation(o, k, consumed[j].lot, consumed[j].quantity, false)];
      }
    }

    /** Creates an order and reserves its stock, unless a line is empty or an article unknown. */
    method PlaceCommande(direct: bool, requests: seq<Request>, now: int, today: int) returns (placed: bool)
      modifies this
      ensures placed == CanPlace(old(View()), requests)
      ensures View() == Apply(old(View()), PlaceOrderStep(direct, requests, now, today))
    {
      var lines := AggregateLines(requests);
      placed := IsOrderRequest(requests)
                && forall k :: 0 <= k < |lines| ==> Article(lines[k].article) in stock;
      if placed {
        orders := orders + [NewOrder(direct, lines, now)];
        ReserveCommandeStock(|orders| - 1, today);
      }
    }

    /** Gives back to its lots everything a line still holds on them. */
    method RestoreLineStockAllocations(o: nat, k: nat)
      requires forall a :: a in allocations ==> a.lot < |lots|
      modifies this`lots, this`allocations
      ensures lots == LotsGivenBack(old(lots), old(allocations), o, k)
      ensures allocations == MarkRestored(old(allocations), o, k)
    {
      ghost var held := allocations;
      assert held[..0] == [];
      for i := 0 to |allocations|
        invariant |allocations| == |held|
        invariant lots == LotsGivenBack(old(lots), held[..i], o, k)
        invariant forall j :: i <= j < |held| ==> allocations[j] == held[j]
        invariant forall j :: 0 <= j < i ==> allocations[j] == MarkRestored(held, o, k)[j]
      {
        var allocation := allocations[i];
        assert allocation == held[i] && held[i] in held;
        assert held[..i + 1][..i] == held[..i];
        if OpenFor(allocation, o, k) {
          var lot := allocation.lot;
          lots := lots[lot := lots[lot].(remaining := lots[lot].remaining + allocation.quantity)];
          allocations := allocations[i := allocation.(restored := true)];
        }
      }
      assert held[..|held|] == held;
    }

    method RestoreReservedStock(o: nat)
      requires HasLines(View(), o)
      requires forall a :: a in allocations ==> a.lot < |lots|
      modifies this
      ensures View() == ReleaseUpTo(old(View()), o, |old(orders)[o].lines|)
    {
      ghost var before, current := View(), View();
      for k := 0 to |orders[o].lines|
        invariant orders == before.orders
        invariant current == View() == ReleaseUpTo(before, o, k)
        invariant forall a :: a in allocations ==> a.lot < |lots|
      {
        RestoreLine(o, k, current);
        current := ReleaseLine(current, o, k);
      }
    }

    method RestoreLine(o: nat, k: nat, ghost current: State)
      requires current == View() && HasLine(current, o, k)
      requires forall a :: a in allocations ==> a.lot < |lots|
      modifies this
      ensures View() == ReleaseLine(current, o, k)
      ensures forall a :: a in allocations ==> a.lot < |lots|
    {
      var line := orders[o].lines[k];
      var item, q := Article(line.article), line.quantity as real;
      stock := stock[item := stock[item] + q];
      movements := movements + [Movement(item, q, ForOrder, Some(o))];
      RestoreLineStockAllocations(o, k);
    }

    /** Every path that gives a reservation back goes through here. */
    method ReleaseOrderReservation(o: nat, options: ReleaseOptions) returns (result: ReleaseResult)
      requires Valid() && o < |orders| && IsReleasePath(options)
      modifies this
      ensures View() == Apply(old(View()), ReleaseStep(o, options))
      ensures result.released == result.statusChanged == Releases(old(orders)[o], options)
      ensures !result.alreadyReleased
      ensures options.cutoff.Some? ==>
                (result.released <==>
                   && old(orders)[o].status == PaiementEnAttente
                   && old(orders)[o].createdAt < options.cutoff.value
                   && old(orders)[o].sessionId == options.requiredSession)
      ensures |orders| == |old(orders)|
      ensures orders[o].status == if result.released then Annulee else old(orders)[o].status
    {
      assert Sound(View());
      assert Accounts(View(), Everywhere) && IsSettled(View());
      var order := orders[o];
      if options.cutoff.Some? && order.createdAt >= options.cutoff.value {
        return ReleaseResult(false, false, false);
      }
      if options.requiredSession.Some? && order.sessionId != options.requiredSession {
        return ReleaseResult(false, false, false);
      }
      var releasable := order.status in options.releasable;
      if !releasable && order.status !in options.idempotent {
        return ReleaseResult(false, false, false);
      }
      var created := false;
      if releasable && o !in releases {
        forall a | a in allocations ensures a.lot < |lots| {
          assert WellFormedAllocation(View(), a);
        }
        created := true;
        RestoreReservedStock(o);
        releases := releases + {o};
      }
      var statusChanged := releasable && order.status != Annulee;
      if statusChanged {
        orders := orders[o := Record(order, Annulee)];
      }
      return ReleaseResult(created, releasable && !created, statusChanged);
    }

    /** A staff cancellation succeeds exactly on a live order or one already cancelled. */
    method CancelCommande(o: nat) returns (result: Result<Status, CancelError>)
      requires Valid() && o < |orders|
      modifies this
      ensures View() == Apply(old(View()), ChangeStatusStep(o, Annulee, 0))
      ensures result == if old(orders)[o].status == Traitee then Err(CancelConflict(Traitee)) else Ok(Annulee)
      ensures result.Ok? ==> orders[o].status == Annulee
    {
      assert Sound(View());
      assert Accounts(View(), Everywhere);
      var release := ReleaseOrderReservation(o, STAFF_CANCEL);
      var status := orders[o].status;
      if release.released || release.alreadyReleased || release.statusChanged || status == Annulee {
        return Ok(status);
      }
      return Err(if IsTerminal(status) then CancelConflict(status) else NotCancellable(status));
    }

    method TransitionCommandeStatus(o: nat, next: Status, now: int) returns (result: Result<Status, TransitionError>)
      requires o < |orders| && next != Annulee
      modifies this
      ensures View() == Apply(old(View()), ChangeStatusStep(o, next, now))
      ensures result.Ok? <==> CanTransition(old(orders)[o].status, next)
      ensures result.Ok? ==> orders[o].status == next
    {
      var transition := Transition(orders[o], next, now);
      if transition.Err? {
        return Err(transition.error);
      }
      orders := orders[o := transition.value];
      return Ok(next);
    }

    /** Whether every line's article has the quantity on sale. */
    method CheckSellable(lines: seq<Line>, today: int) returns (sufficient: bool)
      requires KnownArticles(View(), lines)
      ensures sufficient == SaleCovered(View(), lines, today)
    {
      for k := 0 to |lines|
        invariant forall j :: 0 <= j < k ==>
                    var item := Article(lines[j].article);
                    lines[j].quantity as real <= Sellable(lots, item, stock[item], today)
      {
        var item := Article(lines[k].article);
        var sellable := ComputeSellable(lots, item, stock[item], today);
        if MaxReal(0.0, lines[k].quantity as real - sellable) > 0.0 {
          return false;
        }
      }
      return true;
    }

    method DecrementStocks(lines: seq<Line>, today: int)
      requires KnownArticles(View(), lines)
      modifies this`stock
      ensures stock == SellUpTo(old(View()), lines, |lines|, today).stock
    {
      ghost var stocks := StocksOfSale(View(), lines, today);
      for k := 0 to |lines|
        invariant stock == stocks[k]
      {
        assert IsLowered(stocks[k], stocks[k + 1], lines[k]);
        var item := Article(lines[k].article);
        stock := stock[item := stock[item] - lines[k].quantity as real];
      }
    }

    method RecordSales(lines: seq<Line>, today: int, ghost before: State)
      requires KnownArticles(before, lines) && forall k :: 0 <= k < |lines| ==> lines[k].quantity > 0
      requires lots == before.lots && movements == before.movements && taken == before.taken
      modifies this`lots, this`movements, this`taken
      ensures var after := SellUpTo(before, lines, |lines|, today);
              lots == after.lots && movements == after.movements && taken == after.taken
    {
      ghost var after := before;
      for k := 0 to |lines|
        invariant after == SellUpTo(before, lines, k, today)
        invariant lots == after.lots && movements == after.movements && taken == after.taken
      {
        RecordMovement(Article(lines[k].article), -(lines[k].quantity as real), Vente, None, 0, today);
        after := Withdraw(after, Article(lines[k].article), lines[k].quantity as real, Vente, today);
      }
    }

    /** A till sale: refused as a whole unless every article's sellable stock covers what is asked of it. */
    method CreateVente(requests: seq<Request>, today: int) returns (accepted: bool)
      modifies this
      ensures accepted == CanSell(old(View()), requests, today)
      ensures View() == Apply(old(View()), SellStep(requests, today))
    {
      ghost var before := View();
      if !IsSaleRequest(requests) {
        return false;
      }
      var lines := AggregateLines(requests);
      if exists k :: 0 <= k < |lines| && Article(lines[k].article) !in stock {
        return false;
      }
      var sufficient := CheckSellable(lines, today);
      if !sufficient {
        return false;
      }
      AggregatesArePositive(requests);
      DecrementStocks(lines, today);
      RecordSales(lines, today, before);
      return true;
    }

    /** A manual adjustment or a reception; an article's quantity must be whole and no stock may go below zero. */
    method AjusterStock(item: Item, delta: real, kind: Kind, expiresAt: Option<int>, now: int, today: int)
      returns (accepted: bool)
      modifies this
      ensures accepted == CanAdjust(old(View()), item, delta)
      ensures View() == Apply(old(View()), AdjustStep(item, delta, kind, expiresAt, now, today))
    {
      if delta == 0.0 || (item.Article? && !IsInteger(delta)) || item !in stock {
        return false;
      }
      var after := stock[item] + delta;
      if after < 0.0 {
        return false;
      }
      stock := stock[item := after];
      RecordMovement(item, delta, kind, expiresAt, now, today);
      return true;
    }

    method CheckMaterials(recipe: seq<Ingredient>, count: nat, today: int) returns (sufficient: bool)
      requires Known(stock, recipe)
      ensures sufficient == IsCovered(stock, lots, recipe, count, today)
    {
      for i := 0 to |recipe|
        invariant forall j :: 0 <= j < i ==>
                    Need(recipe[j], count) <= SellableOf(stock, lots, recipe[j].mp, today)
      {
        var item := Matiere(recipe[i].mp);
        var sellable := ComputeSellable(lots, item, stock[item], today);
        if MaxReal(0.0, Need(recipe[i], count) - sellable) > 0.0 {
          return false;
        }
      }
      return true;
    }

    /** Draws the recipe material by material; stops where a conditional update finds too little stock. */
    method ConsumeMaterials(recipe: seq<Ingredient>, count: nat, today: int) returns (passed: bool)
      requires Known(stock, recipe) && IsRecipe(recipe)
      requires forall i :: 0 <= i < |recipe| ==> recipe[i].quantity >= 0.0
      modifies this
      ensures passed == PassesUpdates(old(stock), recipe, count)
      ensures passed ==> View() == ConsumeUpTo(old(View()), recipe, count, |recipe|, today)
    {
      ghost var before, current := View(), View();
      passed := true;
      for i := 0 to |recipe|
        invariant passed && current == View() == ConsumeUpTo(before, recipe, count, i, today)
        invariant forall j :: 0 <= j < i ==> Need(recipe[j], count) <= before.stock[Matiere(recipe[j].mp)]
      {
        passed := ConsumeMaterial(recipe, count, i, today, before, current);
        if !passed {
          return;
        }
        current := Withdraw(current, Matiere(recipe[i].mp), Need(recipe[i], count), Production, today);
      }
    }

    method ConsumeMaterial(recipe: seq<Ingredient>, count: nat, i: nat, today: int, ghost before: State,
                           ghost current: State)
      returns (enough: bool)
      requires i < |recipe| && Known(before.stock, recipe) && IsRecipe(recipe) && recipe[i].quantity >= 0.0
      requires current == View() == ConsumeUpTo(before, recipe, count, i, today)
      modifies this
      ensures enough == (Need(recipe[i], count) <= before.stock[Matiere(recipe[i].mp)])
      ensures enough ==>
                View() == Withdraw(current, Matiere(recipe[i].mp), Need(recipe[i], count), Production, today)
    {
      var item, need := Matiere(recipe[i].mp), Need(recipe[i], count);
      ConsumeLeavesOthers(before, recipe, count, i, today, item);
      enough := need <= stock[item];
      if enough {
        DrawMaterial(item, need, today);
      }
    }

    method DrawMaterial(item: Item, need: real, today: int)
      requires item in stock && need >= 0.0
      modifies this
      ensures View() == Withdraw(old(View()), item, need, Production, today)
    {
      stock := stock[item := stock[item] - need];
      RecordMovement(item, -need, Production, None, 0, today);
    }

    /** A production draws its recipe, then adds the articles; a failed conditional update undoes everything. */
    method ProduceArticle(article: nat, recipe: seq<Ingredient>, count: nat, expiresAt: Option<int>,
                          now: int, today: int) returns (accepted: bool)
      requires Article(article) in stock && count >= 1
      requires IsRecipe(recipe) && forall i :: 0 <= i < |recipe| ==> recipe[i].quantity >= 0.0
      modifies this
      ensures accepted == MayProduce(old(View()), article, recipe, count, today)
      ensures View() == Apply(old(View()), ProduceStep(article, recipe, count, expiresAt, now, today))
    {
      if exists i :: 0 <= i < |recipe| && Matiere(recipe[i].mp) !in stock {
        return false;
      }
      var sufficient := CheckMaterials(recipe, count, today);
      if !sufficient {
        return false;
      }
      accepted := ConsumeAndProduce(article, recipe, count, expiresAt, now, today);
    }

    /** The writes of a production, rolled back where a conditional update fails. */
    method ConsumeAndProduce(article: nat, recipe: seq<Ingredient>, count: nat, expiresAt: Option<int>,
                             now: int, today: int) returns (accepted: bool)
      requires Article(article) in stock && count >= 1 && Known(stock, recipe) && IsRecipe(recipe)
      requires forall i :: 0 <= i < |recipe| ==> recipe[i].quantity >= 0.0
      modifies this
      ensures accepted == PassesUpdates(old(stock), recipe, count)
      ensures View() ==
                if accepted then
                  Deposit(ConsumeUpTo(old(View()), recipe, count, |recipe|, today), Article(article), count as real,
                          Production, expiresAt, now)
                else old(View())
    {
      var stock0, lots0, movements0, orders0 := stock, lots, movements, orders;
      var allocations0, releases0 := allocations, releases;
      ghost var taken0 := taken;
      accepted := ConsumeMaterials(recipe, count, today);
      if accepted {
        var item, q := Article(article), count as real;
        stock := stock[item := stock[item] + q];
        RecordMovement(item, q, Production, expiresAt, now, today);
      } else {
        stock, lots, movements, orders := stock0, lots0, movements0, orders0;
        allocations, releases, taken := allocations0, releases0, taken0;
      }
    }

    /** Only an expired lot that still holds something can be passed to loss. */
    method MarkLotAsLoss(l: LotId, today: int) returns (accepted: bool)
      requires Valid()
      modifies this
      ensures accepted == CanLose(old(View()), l, today)
      ensures View() == Apply(old(View()), LoseStep(l, today))
    {
      assert Sound(View());
      assert Accounts(View(), Everywhere);
      if l >= |lots| || !Expired(lots[l], today) {
        return false;
      }
      var item, lost := lots[l].item, lots[l].remaining;
      if lost <= 0.0 || (item.Article? && !IsInteger(lost)) {
        return false;
      }
      var after := stock[item] - lost;
      if item.Matiere? && after < 0.0 {
        return false;
      }
      stock := stock[item := after];
      lots := lots[l := lots[l].(remaining := 0.0)];
      taken := taken[l := taken[l] + lost];
      movements := movements + [Movement(item, -lost, Perte, None)];
      return true;
    }
  }
}
