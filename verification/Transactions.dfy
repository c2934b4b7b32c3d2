/** Every transaction that touches stock or orders as one atomic step, and what holds over any run of them. */
module Transactions {
  import opened Wrappers
  import opened Orders
  import opened Lots
  import opened Requests
  import opened Capacity
  import opened Ledger

  // ---------------------------------------------------------------- the transactions

  /** An article or raw material enters with no stock. */
  function AddItem(s: State, item: Item): State {
    if item in s.stock then s else s.(stock := s.stock[item := 0.0])
  }

  predicate KnownArticles(s: State, lines: seq<Line>) {
    forall k :: 0 <= k < |lines| ==> Article(lines[k].article) in s.stock
  }

  predicate IsOrderRequest(requests: seq<Request>) {
    requests != [] && forall k :: 0 <= k < |requests| ==> requests[k].quantity >= 1
  }

  predicate CanPlace(s: State, requests: seq<Request>) {
    IsOrderRequest(requests) && KnownArticles(s, Aggregate(requests))
  }

  function PlaceOrder(s: State, direct: bool, requests: seq<Request>, now: int, today: int): State {
    if CanPlace(s, requests) then
      var placed := s.(orders := s.orders + [NewOrder(direct, Aggregate(requests), now)]);
      ReserveUpTo(placed, |s.orders|, |Aggregate(requests)|, today)
    else s
  }

  predicate CanRelease(s: State, o: nat, options: ReleaseOptions) {
    && o < |s.orders|
    && IsReleasePath(options)
    && HasLines(s, o)
    && Releases(s.orders[o], options)
  }

  /** The unique release row gates the restitution; the status changes in the same transaction. */
  function Release(s: State, o: nat, options: ReleaseOptions): State {
    if CanRelease(s, o, options) then
      var restored :=
        if o in s.releases then s
        else ReleaseUpTo(s, o, |s.orders[o].lines|).(releases := s.releases + {o});
      restored.(orders := s.orders[o := Record(s.orders[o], Annulee)])
    else s
  }

  function ConfirmOrder(s: State, o: nat, session: SessionId, now: int): State {
    if o < |s.orders| && s.orders[o].status == PaiementEnAttente then
      s.(orders := s.orders[o := ConfirmPaid(s.orders[o], session, now)])
    else s
  }

  /** Staff may ask for any status; a cancellation goes through the release. */
  function ChangeStatus(s: State, o: nat, next: Status, now: int): State {
    if next == Annulee then Release(s, o, STAFF_CANCEL)
    else if o < |s.orders| && Transition(s.orders[o], next, now).Ok? then
      s.(orders := s.orders[o := Transition(s.orders[o], next, now).value])
    else s
  }

  function AttachSession(s: State, o: nat, session: SessionId): State {
    if o < |s.orders| then s.(orders := s.orders[o := s.orders[o].(sessionId := Some(session))]) else s
  }

  predicate IsSaleRequest(requests: seq<Request>) {
    requests != [] && forall k :: 0 <= k < |requests| ==> requests[k].article > 0 && requests[k].quantity > 0
  }

  predicate SaleCovered(s: State, lines: seq<Line>, today: int)
    requires KnownArticles(s, lines)
  {
    forall k :: 0 <= k < |lines| ==>
      var item := Article(lines[k].article);
      lines[k].quantity as real <= Sellable(s.lots, item, s.stock[item], today)
  }

  predicate CanSell(s: State, requests: seq<Request>, today: int) {
    && IsSaleRequest(requests)
    && KnownArticles(s, Aggregate(requests))
    && SaleCovered(s, Aggregate(requests), today)
  }

  function SellUpTo(s: State, lines: seq<Line>, n: nat, today: int): (r: State)
    requires n <= |lines| && KnownArticles(s, lines)
    ensures r.stock.Keys == s.stock.Keys && r.orders == s.orders && r.releases == s.releases
    ensures r.allocations == s.allocations
  {
    if n == 0 then s
    else
      Withdraw(SellUpTo(s, lines, n - 1, today),
               Article(lines[n - 1].article), lines[n - 1].quantity as real, Vente, today)
  }

  function Sell(s: State, requests: seq<Request>, today: int): State {
    if CanSell(s, requests, today) then SellUpTo(s, Aggregate(requests), |Aggregate(requests)|, today) else s
  }

  predicate IsInteger(q: real) {
    q == q.Floor as real
  }

  predicate CanAdjust(s: State, item: Item, delta: real) {
    && delta != 0.0
    && item in s.stock
    && (item.Article? ==> IsInteger(delta))
    && s.stock[item] + delta >= 0.0
  }

  /** A manual adjustment, or the reception of a raw material. */
  function Adjust(
      s: State, item: Item, delta: real, kind: Kind, expiresAt: Option<int>, now: int, today: int): State {
    if !CanAdjust(s, item, delta) then s
    else if delta > 0.0 then Deposit(s, item, delta, kind, expiresAt, now)
    else Withdraw(s, item, -delta, kind, today)
  }

  function ConsumeUpTo(s: State, recipe: seq<Ingredient>, count: nat, n: nat, today: int): (r: State)
    requires n <= |recipe| && Known(s.stock, recipe)
    ensures r.stock.Keys == s.stock.Keys && r.orders == s.orders && r.releases == s.releases
  {
    if n == 0 then s
    else
      Withdraw(ConsumeUpTo(s, recipe, count, n - 1, today),
               Matiere(recipe[n - 1].mp), Need(recipe[n - 1], count), Production, today)
  }

  predicate IsLowered(before: map<Item, real>, after: map<Item, real>, line: Line) {
    var item := Article(line.article);
    item in before && after == before[item := before[item] - line.quantity as real]
  }

  /** The stock before each line of a sale, and after the last one. */
  lemma StocksOfSale(s: State, lines: seq<Line>, today: int) returns (stocks: seq<map<Item, real>>)
    requires KnownArticles(s, lines)
    ensures |stocks| == |lines| + 1 && stocks[0] == s.stock
    ensures stocks[|lines|] == SellUpTo(s, lines, |lines|, today).stock
    ensures forall k :: 0 <= k < |lines| ==> IsLowered(stocks[k], stocks[k + 1], lines[k])
  {
    stocks := [s.stock];
    for k := 0 to |lines|
      invariant |stocks| == k + 1 && stocks[0] == s.stock && stocks[k] == SellUpTo(s, lines, k, today).stock
      invariant forall i :: 0 <= i < k ==> IsLowered(stocks[i], stocks[i + 1], lines[i])
    {
      stocks := stocks + [SellUpTo(s, lines, k + 1, today).stock];
    }
  }

  predicate MayProduce(s: State, article: nat, recipe: seq<Ingredient>, count: nat, today: int) {
    && Article(article) in s.stock
    && count >= 1
    && IsRecipe(recipe)
    && (forall i :: 0 <= i < |recipe| ==> recipe[i].quantity >= 0.0)
    && CanProduce(s.stock, s.lots, recipe, count, today)
  }

  function Produce(s: State, article: nat, recipe: seq<Ingredient>, count: nat,
                   expiresAt: Option<int>, now: int, today: int): State {
    if MayProduce(s, article, recipe, count, today) then
      Deposit(ConsumeUpTo(s, recipe, count, |recipe|, today),
              Article(article), count as real, Production, expiresAt, now)
    else s
  }

  predicate CanLose(s: State, l: LotId, today: int) {
    && l < |s.lots|
    && |s.taken| == |s.lots|
    && s.lots[l].item in s.stock
    && Expired(s.lots[l], today)
    && s.lots[l].remaining > 0.0
    && (s.lots[l].item.Article? ==> IsInteger(s.lots[l].remaining))
    && (s.lots[l].item.Matiere? ==> s.stock[s.lots[l].item] - s.lots[l].remaining >= 0.0)
  }

  function Lose(s: State, l: LotId, today: int): State {
    if CanLose(s, l, today) then WriteOff(s, l) else s
  }

  datatype Step =
    | AddItemStep(item: Item)
    | PlaceOrderStep(direct: bool, requests: seq<Request>, now: int, today: int)
    | ReleaseStep(order: nat, options: ReleaseOptions)
    | ConfirmStep(order: nat, session: SessionId, now: int)
    | ChangeStatusStep(order: nat, next: Status, now: int)
    | AttachSessionStep(order: nat, session: SessionId)
    | SellStep(requests: seq<Request>, today: int)
    | AdjustStep(item: Item, delta: real, kind: Kind, expiresAt: Option<int>, now: int, today: int)
    | ProduceStep(article: nat, recipe: seq<Ingredient>, count: nat, expiresAt: Option<int>, now: int, today: int)
    | LoseStep(lot: LotId, today: int)

  /** A refused transaction leaves every row as it was. */
  function Apply(s: State, step: Step): State {
    match step
    case AddItemStep(item) => AddItem(s, item)
    case PlaceOrderStep(direct, requests, now, today) => PlaceOrder(s, direct, requests, now, today)
    case ReleaseStep(o, options) => Release(s, o, options)
    case ConfirmStep(o, session, now) => ConfirmOrder(s, o, session, now)
    case ChangeStatusStep(o, next, now) => ChangeStatus(s, o, next, now)
    case AttachSessionStep(o, session) => AttachSession(s, o, session)
    case SellStep(requests, today) => Sell(s, requests, today)
    case AdjustStep(item, delta, kind, expiresAt, now, today) => Adjust(s, item, delta, kind, expiresAt, now, today)
    case ProduceStep(article, recipe, count, expiresAt, now, today) =>
      Produce(s, article, recipe, count, expiresAt, now, today)
    case LoseStep(l, today) => Lose(s, l, today)
  }

  // ---------------------------------------------------------------- every transaction keeps the accounts

  lemma AddItemIsSound(s: State, item: Item)
    requires Sound(s)
    ensures Sound(AddItem(s, item))
  {
    assert IsSettled(s);
    assert Accounts(s, Everywhere);
    if item !in s.stock {
      NoMovementOfUnknown(s.movements, item);
      RowsKeepMeaning(s, AddItem(s, item), Everywhere);
    }
  }

  lemma {:induction false} NoMovementOfUnknown(movements: seq<Movement>, item: Item)
    requires forall m :: m in movements ==> m.item != item
    ensures SumDeltas(movements, item) == 0.0
  {
    if movements != [] {
      assert movements[|movements| - 1] in movements;
      NoMovementOfUnknown(movements[..|movements| - 1], item);
    }
  }

  lemma {:induction false} NoMovementOfNewOrder(movements: seq<Movement>, o: nat, a: nat)
    requires forall m :: m in movements ==> m.order != Some(o)
    ensures OrderDelta(movements, o, a) == 0.0
  {
    if movements != [] {
      assert movements[|movements| - 1] in movements;
      NoMovementOfNewOrder(movements[..|movements| - 1], o, a);
    }
  }

  lemma NewOrderKeepsAccounts(s: State, order: Order)
    requires Balanced(s, Everywhere) && KnownArticles(s, order.lines)
    ensures Balanced(s.(orders := s.orders + [order]), Inside(|s.orders|, 0, 0))
  {
    assert Accounts(s, Everywhere);
    var o := |s.orders|;
    var r := s.(orders := s.orders + [order]);
    var f := Inside(o, 0, 0);
    RowsKeepMeaning(s, r, Everywhere);
    assert HasLines(r, o);
    forall i: nat, a: nat | i < |r.orders|
      ensures OrderDelta(r.movements, i, a) ==
                -LineQuantity(r.orders[i].lines, FirstOutstanding(f, i), EndOutstanding(r, f, i), a)
    {
      if i == o {
        NoMovementOfNewOrder(s.movements, o, a);
      }
    }
  }

  /** A focus that covers every line of a live order is no restriction, and neither is an empty one on a cancelled
      order. */
  lemma FocusCloses(s: State, o: nat)
    requires o < |s.orders|
    requires Balanced(s, Inside(o, 0, |s.orders[o].lines|)) && s.orders[o].status != Annulee
    ensures Balanced(s, Everywhere)
  {
    assert Accounts(s, Inside(o, 0, |s.orders[o].lines|));
    forall a | a in s.allocations && !a.restored
      ensures FirstOutstanding(Everywhere, a.order) <= a.line < EndOutstanding(s, Everywhere, a.order)
    {
      assert FirstOutstanding(Inside(o, 0, |s.orders[o].lines|), a.order) <= a.line;
    }
  }

  lemma FocusOpens(s: State, o: nat)
    requires Balanced(s, Everywhere)
    requires o < |s.orders| && s.orders[o].status != Annulee
    ensures Balanced(s, Inside(o, 0, |s.orders[o].lines|))
  {
    assert Accounts(s, Everywhere);
    forall a | a in s.allocations && a.order == o ensures a.line < |s.orders[o].lines| {
      assert WellFormedAllocation(s, a);
    }
  }

  lemma PlaceOrderKeepsAccounts(s: State, direct: bool, requests: seq<Request>, now: int, today: int)
    requires Balanced(s, Everywhere) && CanPlace(s, requests)
    ensures Balanced(PlaceOrder(s, direct, requests, now, today), Everywhere)
  {
    var order := NewOrder(direct, Aggregate(requests), now);
    var placed := s.(orders := s.orders + [order]);
    NewOrderKeepsAccounts(s, order);
    ReserveKeepsAccounts(placed, |s.orders|, |order.lines|, today);
    ReserveFrame(placed, |s.orders|, |order.lines|, today, |s.orders|);
    FocusCloses(PlaceOrder(s, direct, requests, now, today), |s.orders|);
  }

  lemma PlaceOrderIsSettled(s: State, direct: bool, requests: seq<Request>, now: int, today: int)
    requires Settled(s) && CanPlace(s, requests)
    ensures Settled(PlaceOrder(s, direct, requests, now, today))
  {
    assert IsSettled(s);
    var order := NewOrder(direct, Aggregate(requests), now);
    var placed := s.(orders := s.orders + [order]);
    var r := PlaceOrder(s, direct, requests, now, today);
    NewOrderIsFaithful(direct, Aggregate(requests), now);
    ReserveKeepsMaterials(placed, |s.orders|, |order.lines|, today);
    forall i: nat | i < |r.orders|
      ensures Faithful(r.orders[i]) && r.orders[i].status == placed.orders[i].status && r.releases == s.releases
    {
      ReserveFrame(placed, |s.orders|, |order.lines|, today, i);
      if i < |s.orders| {
        assert Faithful(s.orders[i]);
      }
    }
  }

  lemma {:induction false} ReserveKeepsMaterials(s: State, o: nat, n: nat, today: int)
    requires HasLines(s, o) && n <= |s.orders[o].lines|
    ensures forall item :: item in s.stock && item.Matiere? ==> ReserveUpTo(s, o, n, today).stock[item] == s.stock[item]
  {
    if n > 0 {
      ReserveKeepsMaterials(s, o, n - 1, today);
    }
  }

  lemma {:induction false} ReleaseKeepsMaterials(s: State, o: nat, n: nat)
    requires HasLines(s, o) && n <= |s.orders[o].lines|
    ensures forall item :: item in s.stock && item.Matiere? ==> ReleaseUpTo(s, o, n).stock[item] == s.stock[item]
  {
    if n > 0 {
      ReleaseKeepsMaterials(s, o, n - 1);
    }
  }

  /** Cancelling an order whose lines have all been given back closes its account. */
  lemma CancelClosesAccount(s: State, o: nat)
    requires o < |s.orders|
    requires Balanced(s, Inside(o, |s.orders[o].lines|, |s.orders[o].lines|))
    ensures Balanced(s.(orders := s.orders[o := Record(s.orders[o], Annulee)]), Everywhere)
  {
    assert Accounts(s, Inside(o, |s.orders[o].lines|, |s.orders[o].lines|));
    var n := |s.orders[o].lines|;
    var r := s.(orders := s.orders[o := Record(s.orders[o], Annulee)]);
    RowsKeepMeaning(s, r, Inside(o, n, n));
    forall a | a in r.allocations && !a.restored ensures 0 <= a.line < EndOutstanding(r, Everywhere, a.order) {
      assert FirstOutstanding(Inside(o, n, n), a.order) <= a.line;
    }
  }

  lemma ReleaseIsSound(s: State, o: nat, options: ReleaseOptions)
    requires Sound(s) && CanRelease(s, o, options)
    ensures Sound(Release(s, o, options))
  {
    assert IsSettled(s);
    assert Accounts(s, Everywhere);
    var n := |s.orders[o].lines|;
    var given := ReleaseUpTo(s, o, n);
    assert s.orders[o].status != Annulee && o !in s.releases;
    FocusOpens(s, o);
    ReleaseKeepsAccounts(s, o, n);
    CancelClosesAccount(given, o);
    ReleaseKeepsMaterials(s, o, n);
    CancelStaysFaithful(s.orders[o]);
    ReleasesAreNotRead(given.(orders := given.orders[o := Record(given.orders[o], Annulee)]), s.releases + {o});
    var r := Release(s, o, options);
    forall i: nat | i < |r.orders| ensures Faithful(r.orders[i]) {
      if i != o {
        assert Faithful(s.orders[i]);
      }
    }
  }

  /** An abandoned order is cancelled, with its release row, exactly when it still waits for its payment, is older than
      the cutoff and still holds the session that was expired; otherwise nothing is written. */
  lemma AbandonedIsReleasedExactly(s: State, o: nat, cutoff: int, session: SessionId)
    requires Sound(s) && o < |s.orders|
    ensures var r := Release(s, o, AbandonedRelease(cutoff, session));
            var order := s.orders[o];
            if order.status == PaiementEnAttente && order.createdAt < cutoff && order.sessionId == Some(session)
            then r.orders == s.orders[o := order.(status := Annulee, history := r.orders[o].history)] && o in r.releases
            else r == s
  {
    assert Accounts(s, Everywhere);
    assert HasLines(s, o);
    ReleasesExactly(s.orders[o], cutoff, session);
  }

  /** Staff cancel any order that is not over; an expired or failed checkout cancels one that waits for its payment. */
  lemma OthersAreReleasedExactly(s: State, o: nat)
    requires Sound(s) && o < |s.orders|
    ensures var r, order := Release(s, o, STAFF_CANCEL), s.orders[o];
            if order.status != Traitee && order.status != Annulee
            then r.orders == s.orders[o := order.(status := Annulee, history := r.orders[o].history)] && o in r.releases
            else r == s
    ensures var r, order := Release(s, o, UNPAID_RELEASE), s.orders[o];
            if order.status == PaiementEnAttente
            then r.orders == s.orders[o := order.(status := Annulee, history := r.orders[o].history)] && o in r.releases
            else r == s
  {
    assert Accounts(s, Everywhere);
    assert HasLines(s, o);
    ReleasesExactly(s.orders[o], 0, 0);
  }

  lemma ReleasesAreNotRead(s: State, releases: set<nat>)
    requires Balanced(s, Everywhere)
    ensures Balanced(s.(releases := releases), Everywhere)
  {
    assert Accounts(s, Everywhere);
    var r := s.(releases := releases);
    RowsKeepMeaning(s, r, Everywhere);
  }

  /** Rewriting an order's status, session or dates without cancelling it moves no stock. */
  lemma RewriteIsSound(s: State, o: nat, order: Order)
    requires Sound(s) && o < |s.orders|
    requires order.lines == s.orders[o].lines && Faithful(order)
    requires order.status == Annulee <==> s.orders[o].status == Annulee
    ensures Sound(s.(orders := s.orders[o := order]))
  {
    assert IsSettled(s);
    assert Accounts(s, Everywhere);
    var r := s.(orders := s.orders[o := order]);
    RowsKeepMeaning(s, r, Everywhere);
  }

  lemma OrderStepsAreSound(s: State, o: nat, next: Status, session: SessionId, now: int)
    requires Sound(s)
    ensures Sound(ConfirmOrder(s, o, session, now))
    ensures Sound(AttachSession(s, o, session))
    ensures next != Annulee ==> Sound(ChangeStatus(s, o, next, now))
  {
    assert IsSettled(s);
    if o < |s.orders| {
      var order := s.orders[o];
      assert Faithful(order);
      RewriteIsSound(s, o, order.(sessionId := Some(session)));
      if order.status == PaiementEnAttente {
        ConfirmPaidStaysFaithful(order, session, now);
        RewriteIsSound(s, o, ConfirmPaid(order, session, now));
      }
      TransitionStaysFaithful(order, next, now);
      if next != Annulee && Transition(order, next, now).Ok? {
        RewriteIsSound(s, o, Transition(order, next, now).value);
      }
    }
  }

  lemma {:induction false} SellKeepsAccounts(s: State, lines: seq<Line>, n: nat, today: int)
    requires Balanced(s, Everywhere) && n <= |lines| && KnownArticles(s, lines)
    ensures Balanced(SellUpTo(s, lines, n, today), Everywhere)
  {
    if n > 0 {
      SellKeepsAccounts(s, lines, n - 1, today);
      WithdrawKeepsAccounts(SellUpTo(s, lines, n - 1, today),
                            Article(lines[n - 1].article), lines[n - 1].quantity as real, Vente, today);
    }
  }

  lemma {:induction false} SellLeavesOthers(s: State, lines: seq<Line>, n: nat, today: int, item: Item)
    requires n <= |lines| && KnownArticles(s, lines) && item in s.stock
    requires forall k :: 0 <= k < n ==> item != Article(lines[k].article)
    ensures SellUpTo(s, lines, n, today).stock[item] == s.stock[item]
  {
    if n > 0 {
      SellLeavesOthers(s, lines, n - 1, today, item);
    }
  }

  lemma {:induction false} ConsumeKeepsAccounts(s: State, recipe: seq<Ingredient>, count: nat, n: nat, today: int)
    requires Balanced(s, Everywhere) && n <= |recipe| && Known(s.stock, recipe)
    requires forall i :: 0 <= i < |recipe| ==> recipe[i].quantity >= 0.0
    ensures Balanced(ConsumeUpTo(s, recipe, count, n, today), Everywhere)
  {
    if n > 0 {
      ConsumeKeepsAccounts(s, recipe, count, n - 1, today);
      assert Need(recipe[n - 1], count) >= 0.0;
      WithdrawKeepsAccounts(ConsumeUpTo(s, recipe, count, n - 1, today),
                            Matiere(recipe[n - 1].mp), Need(recipe[n - 1], count), Production, today);
    }
  }

  lemma {:induction false} ConsumeLeavesOthers(
      s: State, recipe: seq<Ingredient>, count: nat, n: nat, today: int, item: Item)
    requires n <= |recipe| && Known(s.stock, recipe) && item in s.stock
    requires forall i :: 0 <= i < n ==> item != Matiere(recipe[i].mp)
    ensures ConsumeUpTo(s, recipe, count, n, today).stock[item] == s.stock[item]
  {
    if n > 0 {
      ConsumeLeavesOthers(s, recipe, count, n - 1, today, item);
    }
  }

  /** Each raw material is drawn on once, for its own need. */
  lemma {:induction false} ConsumeDrawsNeed(
      s: State, recipe: seq<Ingredient>, count: nat, n: nat, today: int, i: nat)
    requires i < n <= |recipe| && Known(s.stock, recipe) && IsRecipe(recipe)
    ensures var item := Matiere(recipe[i].mp);
            ConsumeUpTo(s, recipe, count, n, today).stock[item] == s.stock[item] - Need(recipe[i], count)
  {
    if i == n - 1 {
      ConsumeLeavesOthers(s, recipe, count, i, today, Matiere(recipe[i].mp));
    } else {
      ConsumeDrawsNeed(s, recipe, count, n - 1, today, i);
      assert recipe[n - 1].mp != recipe[i].mp;
    }
  }

  lemma ProduceKeepsMaterials(s: State, recipe: seq<Ingredient>, count: nat, today: int, item: Item)
    requires Known(s.stock, recipe) && IsRecipe(recipe) && PassesUpdates(s.stock, recipe, count)
    requires item in s.stock && s.stock[item] >= 0.0
    ensures ConsumeUpTo(s, recipe, count, |recipe|, today).stock[item] >= 0.0
  {
    if i: nat :| i < |recipe| && item == Matiere(recipe[i].mp) {
      ConsumeDrawsNeed(s, recipe, count, |recipe|, today, i);
    } else {
      ConsumeLeavesOthers(s, recipe, count, |recipe|, today, item);
    }
  }

  lemma ProduceIsSound(s: State, article: nat, recipe: seq<Ingredient>, count: nat,
                       expiresAt: Option<int>, now: int, today: int)
    requires Sound(s) && MayProduce(s, article, recipe, count, today)
    ensures Sound(Produce(s, article, recipe, count, expiresAt, now, today))
  {
    assert IsSettled(s);
    var consumed := ConsumeUpTo(s, recipe, count, |recipe|, today);
    ConsumeKeepsAccounts(s, recipe, count, |recipe|, today);
    DepositKeepsAccounts(consumed, Article(article), count as real, Production, expiresAt, now);
    forall item | item in s.stock && item.Matiere? ensures consumed.stock[item] >= 0.0 {
      ProduceKeepsMaterials(s, recipe, count, today, item);
    }
  }

  lemma SellIsSound(s: State, requests: seq<Request>, today: int)
    requires Sound(s)
    ensures Sound(Sell(s, requests, today))
  {
    assert IsSettled(s);
    if CanSell(s, requests, today) {
      var lines := Aggregate(requests);
      SellKeepsAccounts(s, lines, |lines|, today);
      forall item | item in s.stock && item.Matiere?
        ensures SellUpTo(s, lines, |lines|, today).stock[item] == s.stock[item]
      {
        SellLeavesOthers(s, lines, |lines|, today, item);
      }
    }
  }

  lemma AdjustKeepsAccounts(
      s: State, item: Item, delta: real, kind: Kind, expiresAt: Option<int>, now: int, today: int)
    requires Balanced(s, Everywhere)
    ensures Balanced(Adjust(s, item, delta, kind, expiresAt, now, today), Everywhere)
  {
    if CanAdjust(s, item, delta) {
      if delta > 0.0 {
        DepositKeepsAccounts(s, item, delta, kind, expiresAt, now);
      } else {
        WithdrawKeepsAccounts(s, item, -delta, kind, today);
      }
    }
  }

  lemma AdjustIsSettled(
      s: State, item: Item, delta: real, kind: Kind, expiresAt: Option<int>, now: int, today: int)
    requires Settled(s)
    ensures Settled(Adjust(s, item, delta, kind, expiresAt, now, today))
  {
    assert IsSettled(s);
  }

  lemma LoseIsSound(s: State, l: LotId, today: int)
    requires Sound(s)
    ensures Sound(Lose(s, l, today))
  {
    assert IsSettled(s);
    assert Accounts(s, Everywhere);
    if CanLose(s, l, today) {
      WriteOffKeepsAccounts(s, l);
    }
  }

  lemma StepIsSound(s: State, step: Step)
    requires Sound(s)
    ensures Sound(Apply(s, step))
  {
    assert IsSettled(s);
    match step
    case AddItemStep(item) =>
      AddItemIsSound(s, item);
    case PlaceOrderStep(direct, requests, now, today) =>
      if CanPlace(s, requests) {
        PlaceOrderKeepsAccounts(s, direct, requests, now, today);
        PlaceOrderIsSettled(s, direct, requests, now, today);
      }
    case ReleaseStep(o, options) =>
      if CanRelease(s, o, options) {
        ReleaseIsSound(s, o, options);
      }
    case ConfirmStep(o, session, now) =>
      OrderStepsAreSound(s, o, Nouvelle, session, now);
    case ChangeStatusStep(o, next, now) =>
      if next == Annulee {
        if CanRelease(s, o, STAFF_CANCEL) {
          ReleaseIsSound(s, o, STAFF_CANCEL);
        }
      } else {
        OrderStepsAreSound(s, o, next, 0, now);
      }
    case AttachSessionStep(o, session) =>
      OrderStepsAreSound(s, o, Nouvelle, session, 0);
    case SellStep(requests, today) =>
      SellIsSound(s, requests, today);
    case AdjustStep(item, delta, kind, expiresAt, now, today) =>
      AdjustKeepsAccounts(s, item, delta, kind, expiresAt, now, today);
      AdjustIsSettled(s, item, delta, kind, expiresAt, now, today);
    case ProduceStep(article, recipe, count, expiresAt, now, today) =>
      if MayProduce(s, article, recipe, count, today) {
        ProduceIsSound(s, article, recipe, count, expiresAt, now, today);
      }
    case LoseStep(l, today) =>
      LoseIsSound(s, l, today);
  }

  // ---------------------------------------------------------------- what each transaction leaves

  lemma GatheredAreKnownExactly(s: State, requests: seq<Request>)
    ensures KnownArticles(s, Aggregate(requests)) <==>
              forall k :: 0 <= k < |requests| ==> Article(requests[k].article) in s.stock
  {
    var lines := Aggregate(requests);
    AggregateGathers(requests);
    forall k | 0 <= k < |requests|
      ensures exists i :: 0 <= i < |lines| && lines[i].article == requests[k].article
    {
      assert Asked(requests, requests[k].article);
      assert Mentions(lines, requests[k].article);
    }
    forall i | 0 <= i < |lines|
      ensures exists k :: 0 <= k < |requests| && requests[k].article == lines[i].article
    {
      assert Mentions(lines, lines[i].article);
      assert Asked(requests, lines[i].article);
    }
  }

  /** An order is taken if it asks for something, each time for at least one, and of known articles only; a refused one
      writes nothing. */
  lemma PlacementIsAcceptedExactly(s: State, direct: bool, requests: seq<Request>, now: int, today: int)
    ensures CanPlace(s, requests) <==>
              && requests != []
              && (forall k :: 0 <= k < |requests| ==> requests[k].quantity > 0)
              && (forall k :: 0 <= k < |requests| ==> Article(requests[k].article) in s.stock)
    ensures !CanPlace(s, requests) ==> PlaceOrder(s, direct, requests, now, today) == s
  {
    GatheredAreKnownExactly(s, requests);
  }

  /** A new order stands after the others, with a line for each article asked for, each served from the lots as if it
      were alone. */
  lemma PlacementIsExact(s: State, direct: bool, requests: seq<Request>, now: int, today: int)
    requires CanPlace(s, requests)
    ensures var r, o := PlaceOrder(s, direct, requests, now, today), |s.orders|;
            && |r.orders| == o + 1 && r.orders[..o] == s.orders
            && r.orders[o] == NewOrder(direct, r.orders[o].lines, now)
            && |r.orders[o].lines| == |Aggregate(requests)|
            && (forall k :: 0 <= k < |Aggregate(requests)| ==>
                  IsServed(s, r, Aggregate(requests)[k], r.orders[o].lines[k], today))
  {
    var lines, o := Aggregate(requests), |s.orders|;
    var placed := s.(orders := s.orders + [NewOrder(direct, lines, now)]);
    var r := PlaceOrder(s, direct, requests, now, today);
    AggregateGathers(requests);
    forall i | 0 <= i < o ensures r.orders[i] == s.orders[i] {
      ReserveFrame(placed, o, |lines|, today, i);
    }
    ReserveFrame(placed, o, |lines|, today, o);
    forall k | 0 <= k < |lines| ensures IsServed(s, r, lines[k], r.orders[o].lines[k], today) {
      ReservationIsExact(placed, o, |lines|, today, k);
    }
  }

  /** The line got what the lots of its article could give, and orders the rest ahead. */
  ghost predicate IsServed(s: State, r: State, asked: Line, line: Line, today: int) {
    var item, q := Article(asked.article), asked.quantity as real;
    && |r.lots| == |s.lots| && IsDrawn(s.lots, r.lots, item, q, today)
    && line == Line(asked.article, asked.quantity, q - (Held(s.lots, item, |s.lots|) - Held(r.lots, item, |s.lots|)))
  }

  /** An adjustment is accepted when it changes something, whole units of an article, and leaves no stock below zero.
      What comes in may be dated, what goes out is drawn first expired first. */
  lemma AdjustIsExact(s: State, item: Item, delta: real, kind: Kind, expiresAt: Option<int>, now: int, today: int)
    ensures CanAdjust(s, item, delta) <==>
              && delta != 0.0 && item in s.stock && s.stock[item] + delta >= 0.0
              && (item.Article? ==> delta.Floor as real == delta)
    ensures var r := Adjust(s, item, delta, kind, expiresAt, now, today);
            if !CanAdjust(s, item, delta) then r == s
            else
              && r.stock == s.stock[item := s.stock[item] + delta]
              && r.movements == s.movements + [Movement(item, delta, kind, None)]
              && r.orders == s.orders && r.allocations == s.allocations && r.releases == s.releases
              && (delta > 0.0 ==>
                    r.lots == s.lots + if expiresAt.Some? then [Lot(item, delta, delta, expiresAt, now)] else [])
              && (delta < 0.0 ==>
                    |r.lots| == |s.lots| && IsDrawn(s.lots, r.lots, item, -delta, today)
                    && OthersStay(s.lots, r.lots, {item}))
  {
    if CanAdjust(s, item, delta) {
      if delta < 0.0 {
        WithdrawIsExact(s, item, -delta, kind, today);
      } else {
        DepositIsExact(s, item, delta, kind, expiresAt, now);
      }
    }
  }

  /** A lot is passed to loss when its last day has passed and it still holds something, a whole number of an article;
      it is then lost whole. A raw material must have as much in stock. */
  lemma LossIsExact(s: State, l: LotId, today: int)
    requires Sound(s) && l < |s.lots|
    ensures var lot := s.lots[l];
            CanLose(s, l, today) <==>
              && lot.expiresAt.Some? && lot.expiresAt.value < today && lot.remaining > 0.0
              && (lot.item.Article? ==> lot.remaining.Floor as real == lot.remaining)
              && lot.item in s.stock && (lot.item.Matiere? ==> s.stock[lot.item] >= lot.remaining)
    ensures var lot, r := s.lots[l], Lose(s, l, today);
            if CanLose(s, l, today) then
              && r.lots == s.lots[l := lot.(remaining := 0.0)]
              && lot.item in s.stock && r.stock == s.stock[lot.item := s.stock[lot.item] - lot.remaining]
              && r.movements == s.movements + [Movement(lot.item, -lot.remaining, Perte, None)]
              && r.orders == s.orders && r.allocations == s.allocations && r.releases == s.releases
            else r == s
  {
    assert Accounts(s, Everywhere);
  }
}
